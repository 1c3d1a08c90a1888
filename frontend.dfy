/**
 * The front-end's decision: validate `--device` and `--mediaType`, then
 * offer one button per installed program that handles the media type.
 * The executables found on the search path are given as the set
 * `installed`; what a button runs when clicked is a `Choice`.
 */
module FrontEnd {

  /** A button's command and arguments, as passed to `QProcess::startDetached`. */
  datatype Choice = Choice(command: string, args: seq<string>)

  datatype Failure = MissingArgument | NoSoftwareInstalled

  /** `main` either returns an exit status or shows the window with its choices. */
  datatype Outcome = Exit(status: int, failure: Failure) | ShowWindow(choices: seq<Choice>)

  /** `isExecutableAvailable`: the program is found on the search path. */
  predicate IsExecutableAvailable(installed: set<string>, exe: string) {
    exe in installed
  }

  /** The URL scheme VLC needs: "bd" is spelt "bluray", any other type is kept. */
  function VlcMediaType(mediaType: string): string {
    if mediaType == "bd" then "bluray" else mediaType
  }

  function VlcUrl(mediaType: string, device: string): string {
    VlcMediaType(mediaType) + "://" + device
  }

  // ---------------------------------------------------------------------
  // Reference definition: a table of programs, filtered

  /** Which media types a program is offered for. */
  datatype MediaGate = AnyMedia | OnlyFor(types: set<string>)

  datatype Entry = Entry(choice: Choice, gate: MediaGate)

  /** The programs the front-end knows, in the order their buttons appear. */
  function Catalogue(device: string, mediaType: string): seq<Entry> {
    [ Entry(Choice("vlc", [VlcUrl(mediaType, device)]), AnyMedia),
      Entry(Choice("sound-juicer", []), OnlyFor({"cd"})),
      Entry(Choice("brasero", []), OnlyFor({"cd", "dvd"})),
      Entry(Choice("makemkv", []), OnlyFor({"dvd", "bd"})) ]
  }

  predicate Admits(e: Entry, mediaType: string, installed: set<string>) {
    (e.gate.AnyMedia? || mediaType in e.gate.types) && e.choice.command in installed
  }

  /** An entry's choice if it is admitted, nothing otherwise. */
  function Picked(e: Entry, mediaType: string, installed: set<string>): seq<Choice> {
    if Admits(e, mediaType, installed) then [e.choice] else []
  }

  /** The choices of the admitted entries, in table order. */
  function Offered(es: seq<Entry>, mediaType: string, installed: set<string>): (r: seq<Choice>)
    ensures |r| <= |es|
    ensures forall c :: c in r ==> c.command in installed
  {
    if es == [] then [] else Picked(es[0], mediaType, installed) + Offered(es[1..], mediaType, installed)
  }

  /** The buttons the window offers. */
  function Selection(device: string, mediaType: string, installed: set<string>): seq<Choice> {
    Offered(Catalogue(device, mediaType), mediaType, installed)
  }

  /** An entry's choice is offered exactly when the entry is admitted (commands are distinct). */
  lemma {:induction false} OfferedMembership(es: seq<Entry>, mediaType: string, installed: set<string>, i: nat)
    requires i < |es|
    requires forall j :: 0 <= j < |es| && j != i ==> es[j].choice.command != es[i].choice.command
    ensures es[i].choice in Offered(es, mediaType, installed) <==> Admits(es[i], mediaType, installed)
  {
    var rest := Offered(es[1..], mediaType, installed);
    if i == 0 {
      if es[0].choice in rest {
        OfferedIsDrawnFrom(es[1..], mediaType, installed, es[0].choice);
        assert false;
      }
    } else {
      OfferedMembership(es[1..], mediaType, installed, i - 1);
    }
  }

  /** Every offered choice comes from some entry of the table. */
  lemma {:induction false} OfferedIsDrawnFrom(es: seq<Entry>, mediaType: string, installed: set<string>, c: Choice)
    requires c in Offered(es, mediaType, installed)
    ensures exists j :: 0 <= j < |es| && es[j].choice == c && Admits(es[j], mediaType, installed)
  {
    if !(Admits(es[0], mediaType, installed) && es[0].choice == c) {
      OfferedIsDrawnFrom(es[1..], mediaType, installed, c);
      var j :| 0 <= j < |es| - 1 && es[1..][j].choice == c && Admits(es[1..][j], mediaType, installed);
      assert es[j + 1] == es[1..][j];
    }
  }

  /** The selection written out program by program. */
  lemma SelectionClosedForm(device: string, mediaType: string, installed: set<string>)
    ensures Selection(device, mediaType, installed) ==
      (if "vlc" in installed then [Choice("vlc", [VlcUrl(mediaType, device)])] else [])
      + (if mediaType == "cd" && "sound-juicer" in installed then [Choice("sound-juicer", [])] else [])
      + (if (mediaType == "cd" || mediaType == "dvd") && "brasero" in installed then [Choice("brasero", [])] else [])
      + (if (mediaType == "dvd" || mediaType == "bd") && "makemkv" in installed then [Choice("makemkv", [])] else [])
  {
    var es := Catalogue(device, mediaType);
    var vlc := if "vlc" in installed then [Choice("vlc", [VlcUrl(mediaType, device)])] else [];
    var sj := if mediaType == "cd" && "sound-juicer" in installed then [Choice("sound-juicer", [])] else [];
    var br := if (mediaType == "cd" || mediaType == "dvd") && "brasero" in installed then [Choice("brasero", [])] else [];
    var mk := if (mediaType == "dvd" || mediaType == "bd") && "makemkv" in installed then [Choice("makemkv", [])] else [];
    assert Picked(es[0], mediaType, installed) == vlc;
    assert Picked(es[1], mediaType, installed) == sj;
    assert Picked(es[2], mediaType, installed) == br;
    assert Picked(es[3], mediaType, installed) == mk;
    assert es[1..][1..][1..][1..] == [];
    calc {
      Offered(es, mediaType, installed);
      vlc + Offered(es[1..], mediaType, installed);
      vlc + (sj + Offered(es[1..][1..], mediaType, installed));
      vlc + (sj + (br + Offered(es[1..][1..][1..], mediaType, installed)));
      vlc + (sj + (br + (mk + Offered(es[1..][1..][1..][1..], mediaType, installed))));
      vlc + sj + br + mk;
    }
  }

  // ---------------------------------------------------------------------
  // The imperative selection in `main`

  /** `addButton`: adds the button only if its command is installed. */
  function AddButton(buttons: seq<Choice>, installed: set<string>, command: string, args: seq<string>): seq<Choice> {
    if IsExecutableAvailable(installed, command) then buttons + [Choice(command, args)] else buttons
  }

  /**
   * The sequence of checks in `main`: each program that is installed and
   * handles the media type bumps `optionsDetected` and adds its button.
   */
  method SelectOptions(device: string, mediaType: string, installed: set<string>)
    returns (buttons: seq<Choice>, optionsDetected: nat)
    ensures buttons == Selection(device, mediaType, installed)
    ensures optionsDetected == |buttons|
  {
    buttons, optionsDetected := [], 0;

    if IsExecutableAvailable(installed, "vlc") {
      optionsDetected := optionsDetected + 1;
      var vlcMediaType := mediaType;
      if vlcMediaType == "bd" {
        vlcMediaType := "bluray";
      }
      buttons := AddButton(buttons, installed, "vlc", [vlcMediaType + "://" + device]);
    }

    if mediaType == "cd" && IsExecutableAvailable(installed, "sound-juicer") {
      optionsDetected := optionsDetected + 1;
      buttons := AddButton(buttons, installed, "sound-juicer", []);
    }

    if (mediaType == "cd" || mediaType == "dvd") && IsExecutableAvailable(installed, "brasero") {
      optionsDetected := optionsDetected + 1;
      buttons := AddButton(buttons, installed, "brasero", []);
    }

    if (mediaType == "dvd" || mediaType == "bd") && IsExecutableAvailable(installed, "makemkv") {
      optionsDetected := optionsDetected + 1;
      buttons := AddButton(buttons, installed, "makemkv", []);
    }

    SelectionClosedForm(device, mediaType, installed);
  }

  /** `main` from argument validation to showing the window. */
  method Run(device: string, mediaType: string, installed: set<string>) returns (outcome: Outcome)
    ensures outcome.Exit? ==> outcome.status == 1
    ensures outcome == Exit(1, MissingArgument) <==> device == [] || mediaType == []
    ensures outcome == Exit(1, NoSoftwareInstalled) <==>
              device != [] && mediaType != [] && Selection(device, mediaType, installed) == []
    ensures outcome.ShowWindow? ==>
              outcome.choices == Selection(device, mediaType, installed) && outcome.choices != []
  {
    if device == [] || mediaType == [] {
      return Exit(1, MissingArgument);
    }
    var buttons, optionsDetected := SelectOptions(device, mediaType, installed);
    if optionsDetected == 0 {
      return Exit(1, NoSoftwareInstalled);
    }
    outcome := ShowWindow(buttons);
  }

  // ---------------------------------------------------------------------
  // Per-program rules

  /** VLC is offered for every media type whenever it is installed, and always first. */
  lemma VlcOffered(device: string, mediaType: string, installed: set<string>)
    ensures var sel := Selection(device, mediaType, installed);
      ("vlc" in installed <==> Choice("vlc", [VlcUrl(mediaType, device)]) in sel) &&
      ("vlc" in installed ==> sel[0] == Choice("vlc", [VlcUrl(mediaType, device)]))
  {
  }

  /** VLC's single argument is `<scheme>://<device>`, with "bd" spelt "bluray". */
  lemma VlcArgument(device: string, mediaType: string)
    ensures mediaType == "bd" ==> VlcUrl(mediaType, device) == "bluray://" + device
    ensures mediaType != "bd" ==> VlcUrl(mediaType, device) == mediaType + "://" + device
  {
  }

  lemma SoundJuicerOffered(device: string, mediaType: string, installed: set<string>)
    ensures Choice("sound-juicer", []) in Selection(device, mediaType, installed) <==>
              mediaType == "cd" && "sound-juicer" in installed
  {
    var es := Catalogue(device, mediaType);
    OfferedMembership(es, mediaType, installed, 1);
  }

  lemma BraseroOffered(device: string, mediaType: string, installed: set<string>)
    ensures Choice("brasero", []) in Selection(device, mediaType, installed) <==>
              (mediaType == "cd" || mediaType == "dvd") && "brasero" in installed
  {
    var es := Catalogue(device, mediaType);
    OfferedMembership(es, mediaType, installed, 2);
  }

  lemma MakeMkvOffered(device: string, mediaType: string, installed: set<string>)
    ensures Choice("makemkv", []) in Selection(device, mediaType, installed) <==>
              (mediaType == "dvd" || mediaType == "bd") && "makemkv" in installed
  {
    var es := Catalogue(device, mediaType);
    OfferedMembership(es, mediaType, installed, 3);
  }

  /** Position of a program in the button order VLC, Sound Juicer, Brasero, MakeMKV. */
  function ButtonRank(command: string): nat {
    if command == "vlc" then 0
    else if command == "sound-juicer" then 1
    else if command == "brasero" then 2
    else 3
  }

  /** Buttons appear in table order, each program at most once. */
  lemma SelectionOrdered(device: string, mediaType: string, installed: set<string>)
    ensures var sel := Selection(device, mediaType, installed);
      forall i, j :: 0 <= i < j < |sel| ==> ButtonRank(sel[i].command) < ButtonRank(sel[j].command)
  {
    SelectionClosedForm(device, mediaType, installed);
  }
}
