/**
 * The monitoring daemon's per-event logic: turning a udev notification into
 * an event record, deciding the media family, probing the drive and
 * launching the front-end with its two arguments.
 *
 * The kernel calls are inputs: `fd` is what `open` returned (-1 on failure)
 * and `status` what the `CDROM_DRIVE_STATUS` ioctl returned (-1 on failure).
 * What the event does to the outside world is returned as a trace of
 * `Effect`s, in the order it happens.
 */
module Daemon {

  import opened Wrappers
  import opened CString
  import opened Drive

  /** The fields a udev notification may carry; `None` is a NULL pointer. */
  datatype Notification = Notification(
    action: Option<string>,
    devnode: Option<string>,
    devtype: Option<string>,
    mediaCd: Option<string>,
    mediaDvd: Option<string>,
    mediaBd: Option<string>)

  /** The record handed to the per-event thread; every field is present. */
  datatype EventInfo = EventInfo(
    action: string,
    devnode: string,
    devtype: string,
    mediaCd: string,
    mediaDvd: string,
    mediaBd: string)

  /** A media property as stored in the record: a missing one reads as "0". */
  function PropertyOrZero(p: Option<string>): string {
    match p
    case Some(v) => v
    case None => "0"
  }

  /** The record `main` builds from a notification, if it builds one at all. */
  function BuildRecord(n: Notification): (r: Option<EventInfo>)
    ensures r.Some? <==> n.action.Some? && n.devnode.Some? && n.devtype.Some?
    ensures r.Some? ==>
              r.value.action == n.action.value &&
              r.value.devnode == n.devnode.value &&
              r.value.devtype == n.devtype.value
    ensures r.Some? ==>
              (n.mediaCd.Some? ==> r.value.mediaCd == n.mediaCd.value) &&
              (n.mediaDvd.Some? ==> r.value.mediaDvd == n.mediaDvd.value) &&
              (n.mediaBd.Some? ==> r.value.mediaBd == n.mediaBd.value)
    ensures r.Some? ==>
              (n.mediaCd.None? ==> r.value.mediaCd == "0") &&
              (n.mediaDvd.None? ==> r.value.mediaDvd == "0") &&
              (n.mediaBd.None? ==> r.value.mediaBd == "0")
  {
    if n.action.Some? && n.devnode.Some? && n.devtype.Some? then
      Some(EventInfo(n.action.value, n.devnode.value, n.devtype.value,
                     PropertyOrZero(n.mediaCd), PropertyOrZero(n.mediaDvd), PropertyOrZero(n.mediaBd)))
    else
      None
  }

  // ---------------------------------------------------------------------
  // Media classification

  datatype MediaKind = CD | DVD | BD

  /** The `--mediaType=` value for a media family; Blu-ray is passed as "bd". */
  function MediaTypeName(k: MediaKind): string {
    match k
    case CD => "cd"
    case DVD => "dvd"
    case BD => "bd"
  }

  /** Position in the tie-break order CD, DVD, BD. */
  function Rank(k: MediaKind): nat {
    match k
    case CD => 0
    case DVD => 1
    case BD => 2
  }

  /** The record's media property for one family. */
  function Flag(dei: EventInfo, k: MediaKind): string {
    match k
    case CD => dei.mediaCd
    case DVD => dei.mediaDvd
    case BD => dei.mediaBd
  }

  /** A property counts as set only when it is exactly "1". */
  predicate IsSet(flag: string) {
    flag == "1"
  }

  /**
   * The detected media family: the set flag of lowest rank, or `None` when
   * no flag is set.
   */
  function Classify(dei: EventInfo): (r: Option<MediaKind>)
    ensures r.Some? ==> IsSet(Flag(dei, r.value))
    ensures r.Some? ==> forall k :: Rank(k) < Rank(r.value) ==> !IsSet(Flag(dei, k))
    ensures r.None? <==> forall k :: !IsSet(Flag(dei, k))
  {
    if dei.mediaCd == "1" then Some(CD)
    else if dei.mediaDvd == "1" then Some(DVD)
    else if dei.mediaBd == "1" then Some(BD)
    else None
  }

  /** The priority rule spelt out flag by flag. */
  lemma ClassifyByFlags(dei: EventInfo)
    ensures Classify(dei) == Some(CD) <==> dei.mediaCd == "1"
    ensures Classify(dei) == Some(DVD) <==> dei.mediaCd != "1" && dei.mediaDvd == "1"
    ensures Classify(dei) == Some(BD) <==>
              dei.mediaCd != "1" && dei.mediaDvd != "1" && dei.mediaBd == "1"
    ensures Classify(dei) == None <==>
              dei.mediaCd != "1" && dei.mediaDvd != "1" && dei.mediaBd != "1"
  {
    assert Flag(dei, CD) == dei.mediaCd && Flag(dei, DVD) == dei.mediaDvd;
    assert Flag(dei, BD) == dei.mediaBd;
  }

  // ---------------------------------------------------------------------
  // What one event does

  const FrontEndProgram: string := "autoplay-gui"
  const DevicePrefix: string := "--device="
  const MediaTypePrefix: string := "--mediaType="

  /** Size of each `calloc`ed argument buffer. */
  const ArgBufferSize: nat := 1024

  /** The longest device path whose `--device=` argument fits its buffer with the NUL. */
  const MaxDevnodeLength: nat := ArgBufferSize - |DevicePrefix| - 1

  datatype Effect =
    | OpenDevice(path: string)          // open(devnode, O_RDONLY | O_NONBLOCK)
    | QueryDriveStatus(fd: int)         // ioctl(fd, CDROM_DRIVE_STATUS, CDSL_CURRENT)
    | Launch(program: string, argv: seq<string>)  // startDetached(args[0], args)
    | CloseDevice(fd: int)              // close(fd)
    | FreeRecord                        // free_dei(dei)

  /** The argument vector given to the front-end. */
  function LaunchArgv(devnode: string, k: MediaKind): seq<string> {
    [FrontEndProgram, DevicePrefix + devnode, MediaTypePrefix + MediaTypeName(k)]
  }

  /** The effects of one call of `device_event`, in order. */
  function EventEffects(dei: EventInfo, fd: int, status: int): seq<Effect> {
    match Classify(dei)
    case None => [FreeRecord]
    case Some(k) =>
      if dei.action != "change" then [FreeRecord]
      else if fd == -1 then [OpenDevice(dei.devnode), FreeRecord]
      else if status == -1 then
        [OpenDevice(dei.devnode), QueryDriveStatus(fd), CloseDevice(fd), FreeRecord]
      else
        [OpenDevice(dei.devnode), QueryDriveStatus(fd)]
        + (if DecodeStatus(status) == DiscOk then [Launch(FrontEndProgram, LaunchArgv(dei.devnode, k))] else [])
        + [CloseDevice(fd), FreeRecord]
  }

  /** The argument vectors of the launches in a trace. */
  function Launched(es: seq<Effect>): seq<seq<string>> {
    if es == [] then []
    else (if es[0].Launch? then [es[0].argv] else []) + Launched(es[1..])
  }

  lemma {:induction false} LaunchedAppend(a: seq<Effect>, b: seq<Effect>)
    ensures Launched(a + b) == Launched(a) + Launched(b)
  {
    if a == [] {
      assert a + b == b;
    } else {
      assert (a + b)[0] == a[0];
      assert (a + b)[1..] == a[1..] + b;
      LaunchedAppend(a[1..], b);
    }
  }

  lemma {:induction false} NothingLaunched(es: seq<Effect>)
    requires forall i :: 0 <= i < |es| ==> !es[i].Launch?
    ensures Launched(es) == []
  {
    if es != [] {
      NothingLaunched(es[1..]);
    }
  }

  /** A launch needs media, a "change" action, an open device and `CDS_DISC_OK`. */
  predicate LaunchExpected(dei: EventInfo, fd: int, status: int) {
    Classify(dei).Some? && dei.action == "change" && fd != -1 && status == CdsDiscOk
  }

  // ---------------------------------------------------------------------
  // Building the argument strings in fixed-size buffers

  /**
   * The path on which `device_event` fills the argument buffers: media
   * detected, a "change" action, a successful open and a successful ioctl.
   */
  predicate BuildsArguments(dei: EventInfo, fd: int, status: int) {
    Classify(dei).Some? && dei.action == "change" && fd != -1 && status != -1
  }

  /**
   * A zeroed buffer of `ArgBufferSize` characters, filled with `strcpy`
   * of the prefix and `strcat` of the value.
   */
  method MakeArg(prefix: string, value: string) returns (buf: array<char>)
    requires IsCString(prefix) && IsCString(value)
    requires |prefix| + |value| < ArgBufferSize
    ensures fresh(buf) && buf.Length == ArgBufferSize
    ensures CStr(buf[..]) == prefix + value
  {
    buf := new char[ArgBufferSize](_ => Nul);
    StrCpy(buf, prefix);
    StrCat(buf, value);
  }

  /**
   * `device_event`: classify, check the action, probe the drive and launch
   * the front-end when the disc is ready; the record is freed and the
   * device closed on the way out.
   */
  method DeviceEvent(dei: EventInfo, fd: int, status: int) returns (effects: seq<Effect>)
    requires IsCString(dei.devnode)
    requires BuildsArguments(dei, fd, status) ==> |dei.devnode| <= MaxDevnodeLength
    ensures effects == EventEffects(dei, fd, status)
  {
    var mediaType := Classify(dei);
    if mediaType.None? {
      effects := [FreeRecord];
      return;
    }
    if dei.action != "change" {
      effects := [FreeRecord];
      return;
    }
    effects := [OpenDevice(dei.devnode)];
    if fd == -1 {
      effects := effects + [FreeRecord];
      return;
    }
    effects := effects + [QueryDriveStatus(fd)];
    if status == -1 {
      effects := effects + [CloseDevice(fd), FreeRecord];
      return;
    }
    var argDevice := MakeArg(DevicePrefix, dei.devnode);
    var argMediaType := MakeArg(MediaTypePrefix, MediaTypeName(mediaType.value));
    var args := [FrontEndProgram, CStr(argDevice[..]), CStr(argMediaType[..])];
    match DecodeStatus(status) {
      case DiscOk =>
        effects := effects + [Launch(args[0], args)];
      case _ =>
    }
    effects := effects + [CloseDevice(fd), FreeRecord];
  }

  // ---------------------------------------------------------------------
  // Properties of one event

  /** The record is freed exactly once, and that is the event's last effect. */
  lemma RecordFreedOnce(dei: EventInfo, fd: int, status: int)
    ensures var es := EventEffects(dei, fd, status);
      multiset(es)[FreeRecord] == 1 && es[|es| - 1] == FreeRecord
  {
  }

  /**
   * The descriptor is closed exactly once when the open succeeded and
   * never otherwise, and no other descriptor is closed.
   */
  lemma DeviceClosedIffOpened(dei: EventInfo, fd: int, status: int)
    ensures var es := EventEffects(dei, fd, status);
      multiset(es)[CloseDevice(fd)] == if OpenDevice(dei.devnode) in es && fd != -1 then 1 else 0
    ensures forall d :: CloseDevice(d) in EventEffects(dei, fd, status) ==> d == fd
  {
    var es := EventEffects(dei, fd, status);
    if Classify(dei).Some? && dei.action == "change" && fd != -1 && status != -1 {
      var k := Classify(dei).value;
      var mid := if DecodeStatus(status) == DiscOk then [Launch(FrontEndProgram, LaunchArgv(dei.devnode, k))] else [];
      assert es == [OpenDevice(dei.devnode), QueryDriveStatus(fd)] + mid + [CloseDevice(fd), FreeRecord];
      assert multiset(mid)[CloseDevice(fd)] == 0;
    }
  }

  /** An event is dropped before any open exactly when it has no media or is not a "change". */
  lemma DroppedBeforeOpen(dei: EventInfo, fd: int, status: int)
    ensures EventEffects(dei, fd, status) == [FreeRecord] <==>
              Classify(dei).None? || dei.action != "change"
  {
  }

  /**
   * At most one launch, exactly when `LaunchExpected` holds, with the
   * argument vector `autoplay-gui --device=<devnode> --mediaType=<cd|dvd|bd>`.
   */
  lemma LaunchDecision(dei: EventInfo, fd: int, status: int)
    ensures Launched(EventEffects(dei, fd, status)) ==
      if LaunchExpected(dei, fd, status)
      then [[FrontEndProgram, DevicePrefix + dei.devnode, MediaTypePrefix + MediaTypeName(Classify(dei).value)]]
      else []
  {
    var es := EventEffects(dei, fd, status);
    match Classify(dei)
    case None =>
      NothingLaunched(es);
    case Some(k) =>
      if dei.action != "change" || fd == -1 || status == -1 {
        NothingLaunched(es);
      } else {
        var mid := if DecodeStatus(status) == DiscOk then [Launch(FrontEndProgram, LaunchArgv(dei.devnode, k))] else [];
        LaunchedAppend([OpenDevice(dei.devnode), QueryDriveStatus(fd)] + mid, [CloseDevice(fd), FreeRecord]);
        LaunchedAppend([OpenDevice(dei.devnode), QueryDriveStatus(fd)], mid);
        DiscOkOnlyFromItsCode(status);
      }
  }

  /** Every launch runs the front-end, which is also the argument vector's `argv[0]`. */
  lemma LaunchRunsFrontEnd(dei: EventInfo, fd: int, status: int)
    ensures forall e :: e in EventEffects(dei, fd, status) && e.Launch? ==>
              e.program == FrontEndProgram && |e.argv| > 0 && e.argv[0] == FrontEndProgram
  {
    var es := EventEffects(dei, fd, status);
    if Classify(dei).Some? && dei.action == "change" && fd != -1 && status != -1 {
      var k := Classify(dei).value;
      var mid := if DecodeStatus(status) == DiscOk then [Launch(FrontEndProgram, LaunchArgv(dei.devnode, k))] else [];
      assert es == [OpenDevice(dei.devnode), QueryDriveStatus(fd)] + mid + [CloseDevice(fd), FreeRecord];
    }
  }

  /** A Blu-ray disc is announced as "bd"; the player-specific name is left to the front-end. */
  lemma BluRayPassedAsBd(devnode: string)
    ensures LaunchArgv(devnode, BD)[2] == "--mediaType=bd"
  {
  }

  // ---------------------------------------------------------------------
  // One iteration of the monitor loop

  /**
   * `main`'s handling of one received notification: build a record when
   * action, devnode and devtype are present, and hand it to a new thread;
   * if the thread cannot be created the record is freed right away.
   */
  method OnNotification(n: Notification, threadCreated: bool, fd: int, status: int)
    returns (effects: seq<Effect>)
    requires n.devnode.Some? ==> IsCString(n.devnode.value)
    requires BuildRecord(n).Some? && threadCreated && BuildsArguments(BuildRecord(n).value, fd, status) ==>
               |n.devnode.value| <= MaxDevnodeLength
    ensures BuildRecord(n).None? ==> effects == []
    ensures BuildRecord(n).Some? && !threadCreated ==> effects == [FreeRecord]
    ensures BuildRecord(n).Some? && threadCreated ==>
              effects == EventEffects(BuildRecord(n).value, fd, status)
    ensures BuildRecord(n).Some? ==> multiset(effects)[FreeRecord] == 1
  {
    var record := BuildRecord(n);
    if record.None? {
      effects := [];
      return;
    }
    if !threadCreated {
      effects := [FreeRecord];
      return;
    }
    effects := DeviceEvent(record.value, fd, status);
    RecordFreedOnce(record.value, fd, status);
  }
}
