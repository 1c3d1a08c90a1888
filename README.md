# autoplay — a Dafny model of the optical-media autoplay daemon and its front-end

The repository is a small Linux autoplay service. A daemon (`source/main.cpp`)
listens to udev block-device events. For each event it builds a record, picks
the media family (CD, then DVD, then BD) from udev's `ID_CDROM_MEDIA_*`
properties and drops anything that is not a `change`. It then opens the device
node and asks the drive for its status with the `CDROM_DRIVE_STATUS` ioctl.
When the status is `CDS_DISC_OK` it launches `autoplay-gui --device=<node>
--mediaType=<cd|dvd|bd>`. The front-end (`source/gui.cpp`) checks both
arguments and offers one button per installed program that handles the media
type: VLC, Sound Juicer, Brasero, MakeMKV.

The model has five modules:

- `Wrappers` (`wrappers.dfy`): `Option`, used for the C pointers that may be NULL.
- `CString` (`cstring.dfy`): NUL-terminated buffers as `array<char>`. `strlen`,
  `strcpy` and `strcat` are methods with loops. `CStr` is the C string a buffer holds.
- `Drive` (`drive.dfy`): the `CDS_*` status codes of `linux/cdrom.h` and the
  status switch's cases.
- `Daemon` (`daemon.dfy`): record building, classification, the argument
  buffers, `device_event`, and one iteration of the monitor loop. The kernel
  calls' results are parameters: `fd` is what `open` returned, `status` what
  the ioctl returned, `threadCreated` whether `pthread_create` succeeded.
  `device_event`'s side effects come back as an ordered trace of `Effect`s:
  open, ioctl, launch, close and free of the record. `EventEffects` is the
  reference definition of that trace, and the lemmas about it state the
  resource and launch properties.
- `FrontEnd` (`frontend.dfy`): the front-end's argument check and option
  selection. The set `installed` stands in for the executables found on the
  search path. `Selection` is the reference definition: a fixed table of
  programs filtered by media type and installation. `SelectOptions` is the
  source's sequence of `if`s with its `optionsDetected` counter, proved equal to it.

The code checks the media flags before the action. Either failure drops the
event with the same effects (`Daemon.DroppedBeforeOpen`). The argument vector
starts with `autoplay-gui` as `argv[0]`, as the code passes it.

## Model

| member | source | states |
|---|---|---|
| `Daemon.BuildRecord` | source/main.cpp:190-206 | a record exists exactly when action, devnode and devtype are all present; those three are copied, and each media property is copied or becomes "0" |
| `Daemon.Classify` | source/main.cpp:86-99 | the result is a family whose property is exactly "1" and no family of higher priority (CD, then DVD, then BD) is set; no result exactly when no property is "1" |
| `Daemon.ClassifyByFlags` | source/main.cpp:86-93 | CD whenever media_cd is "1"; DVD iff CD is not "1" and DVD is; BD iff neither CD nor DVD is "1" and BD is; none iff no flag is "1" |
| `Daemon.MakeArg` | source/main.cpp:123-129 | a fresh zeroed 1024-character buffer, after `strcpy` of the prefix and `strcat` of the value, holds exactly prefix followed by value |
| `Daemon.DeviceEvent` | source/main.cpp:80-162 | the effects of one event, built with the real buffers, equal the reference trace `EventEffects` |
| `Daemon.RecordFreedOnce` | source/main.cpp:95-159 | on every path the record is freed exactly once, as the last effect |
| `Daemon.DeviceClosedIffOpened` | source/main.cpp:108-158 | the descriptor is closed exactly once if the open succeeded and never otherwise; no other descriptor is closed |
| `Daemon.DroppedBeforeOpen` | source/main.cpp:86-106 | the event only frees its record, with no open, no ioctl and no launch, exactly when no media flag is set or the action is not "change" |
| `Daemon.LaunchDecision` | source/main.cpp:108-153 | at most one launch, exactly when media is detected, the action is "change", the open succeeded and the status is `CDS_DISC_OK`; its argv is `autoplay-gui`, `--device=<devnode>`, `--mediaType=<cd, dvd or bd>` |
| `Daemon.LaunchRunsFrontEnd` | source/main.cpp:131-148 | every launch runs the program `autoplay-gui`, which is also the first element of its argument vector |
| `Daemon.BluRayPassedAsBd` | source/main.cpp:91-92 | a BD disc is announced to the front-end as `--mediaType=bd`, not renamed |
| `Daemon.OnNotification` | source/main.cpp:198-212 | no record means no effect; a failed thread creation frees the record at once; otherwise the event's own effects; the record is freed exactly once whenever it was built |
| `Drive.DecodeStatus` | source/main.cpp:133-153 | each named code 0 to 4 maps to its own case and any other code to `Unknown`; the case's kernel code is the input code |
| `Drive.DecodeStatusCode` | source/main.cpp:133-153 | decoding the kernel code of any status gives that status back |
| `Drive.DiscOkOnlyFromItsCode` | source/main.cpp:146-148 | only the code `CDS_DISC_OK` (4) reaches the launching case |
| `CString.CStr` | source/main.cpp:123-131 | the C string of a buffer is a prefix of it without NUL, followed by a NUL when shorter than the buffer |
| `CString.CStrOfTerminated` | source/main.cpp:123-131 | whatever follows the terminating NUL does not belong to the C string |
| `CString.StrLen` | source/main.cpp:125 | the index of the first NUL, which is the length of the buffer's C string |
| `CString.StrCpy` | source/main.cpp:124 | after `strcpy` the buffer holds exactly the source string; the bytes after its NUL are unchanged |
| `CString.StrCat` | source/main.cpp:125 | after `strcat` the buffer holds its old C string followed by the appended string; the bytes after the new NUL are unchanged |
| `FrontEnd.Offered` | source/gui.cpp:67-68 | no more choices than table entries, and only installed commands are offered |
| `FrontEnd.OfferedMembership` | source/gui.cpp:86-129 | a table entry with a distinct command is offered iff it is installed and handles the media type |
| `FrontEnd.SelectionClosedForm` | source/gui.cpp:86-129 | the selection is VLC if installed, then Sound Juicer for "cd", Brasero for "cd" or "dvd", MakeMKV for "dvd" or "bd", each only if installed |
| `FrontEnd.SelectOptions` | source/gui.cpp:86-129 | the buttons added equal the reference selection, and `optionsDetected` equals the number of buttons |
| `FrontEnd.Run` | source/gui.cpp:35-134 | exit 1 without options when device or mediaType is empty; exit 1 when nothing is offered; otherwise the window shows the non-empty selection |
| `FrontEnd.VlcOffered` | source/gui.cpp:88-100 | VLC is offered for every media type iff it is installed, and then it is the first button |
| `FrontEnd.VlcArgument` | source/gui.cpp:90-98 | VLC's argument is `bluray://<device>` for "bd" and `<mediaType>://<device>` otherwise |
| `FrontEnd.SoundJuicerOffered` | source/gui.cpp:102-109 | Sound Juicer is offered iff mediaType is "cd" and it is installed |
| `FrontEnd.BraseroOffered` | source/gui.cpp:111-119 | Brasero is offered iff mediaType is "cd" or "dvd" and it is installed |
| `FrontEnd.MakeMkvOffered` | source/gui.cpp:121-129 | MakeMKV is offered iff mediaType is "dvd" or "bd" and it is installed |
| `FrontEnd.SelectionOrdered` | source/gui.cpp:86-129 | buttons appear in the order VLC, Sound Juicer, Brasero, MakeMKV, each program at most once |

## Left out

- The udev context, the monitor setup and the receive loop (source/main.cpp:164-189, 213-219) are operating-system I/O. `Daemon.OnNotification` models one received notification.
- Per-event threads (source/main.cpp:208-212) are concurrency. Each event is an independent sequential call, and the outcome of `pthread_create` is the input `threadCreated`.
- `startDetached` (source/main.cpp:33-78) forks twice, calls `setsid`, `umask`, `chdir` and `freopen`, and finally `execvp`. It is process control with no value to return, so it is the single effect `Launch(program, argv)`. A failed first fork exits the daemon itself (source/main.cpp:36-38), so `close(fd)` and `free_dei` are never reached; the trace assumes the launch returns, and `Daemon.RecordFreedOnce` and `Daemon.DeviceClosedIffOpened` hold only on that assumption. The launched program also inherits the open device descriptor: `open` (source/main.cpp:108) does not pass `O_CLOEXEC` and only descriptors 0-2 are redirected (source/main.cpp:68-70), so `Daemon.DeviceClosedIffOpened` is about the daemon's own `close` only.
- `open` and `ioctl(CDROM_DRIVE_STATUS)` (source/main.cpp:108-115) are kernel calls. Their results are the inputs `fd` and `status`.
- The `free` of the two argument buffers (source/main.cpp:155-156) is not part of the effect trace. The buffers are Dafny arrays.
- `free_dei` frees six strings and the record. It is the single effect `FreeRecord`.
- Daemon.DeviceEvent: requires a device path of at most 1014 characters only on the path where the argument buffers are built (media detected, action "change", open and ioctl successful). There a longer path overflows the 1024-byte buffer in `strcat`, which is undefined behaviour in C; the model does not describe it. A Dafny `char` stands for one byte of the C string, so the bound counts bytes. Every path requires a device path without NUL, as any C string is.
- Daemon.OnNotification: carries the same device-path requirement, only when a record is built, its thread is created and the event reaches the argument buffers.
- `printf` and `perror` logging in both programs carries no behaviour to verify.
- The front-end's Qt widgets, labels, icons, sizes and styles (source/gui.cpp:43-84, 136-138) are presentation. A button is its `Choice`: the command and arguments it runs when clicked. Running it with `QProcess::startDetached` and quitting are not modelled.
- `QCommandLineParser` and `QStandardPaths::findExecutable` (source/gui.cpp:15-36) are library calls. The parsed `device` and `mediaType` strings and the set `installed` are inputs.
- FrontEnd.Run: when the window is shown, the source returns the exit status of Qt's event loop (`app.exec()`); the model stops at `ShowWindow`.
