/**
 The decision skeleton of saving the canvas.  The platform facts the routine
 consults (permission, storage state, directory, the outcome of `mkdirs` and of
 the PNG write, the clock) are the fields of one input record, and what the
 routine does is the list of effects it performs, in order.  Line numbers in
 the comments below refer to CanvasView.java.
 */
module Save {
  import opened Decimal

  /** The external storage states that `Environment.getExternalStorageState` reports. */
  datatype StorageState =
    | Unknown | Removed | Unmounted | Checking | NoFs | Mounted | MountedReadOnly
    | Shared | BadRemoval | Unmountable | Ejecting

  /** `isExternalStorageReadable`: mounted, read-write or read-only. */
  function IsExternalStorageReadable(state: StorageState): bool
  {
    state == Mounted || state == MountedReadOnly
  }

  /**
   `isExternalStorageWritable`: mounted read-write.  Storage one can write can
   be read; read-only storage can be read but not written.
   */
  function IsExternalStorageWritable(state: StorageState): (r: bool)
    ensures r ==> IsExternalStorageReadable(state)
    ensures state == MountedReadOnly ==> !r && IsExternalStorageReadable(state)
  {
    state == Mounted
  }

  /** The routine returns early exactly when the storage cannot even be read. */
  lemma EarlyReturnExactlyWhenUnreadable(state: StorageState)
    ensures (!IsExternalStorageWritable(state) && !IsExternalStorageReadable(state))
        <==> !IsExternalStorageReadable(state)
  {
  }

  datatype SaveInput = SaveInput(
    permissionGranted: bool,   // WRITE_EXTERNAL_STORAGE is granted
    storage: StorageState,
    picturesDir: string,       // the public pictures directory, as a path
    dirExists: bool,           // DoodlePictures already exists there
    mkdirsSucceeds: bool,      // creating it would succeed
    millis: Long,              // the clock at the moment the file is named
    writeCompletes: bool)      // lines 160-165 throw no `Exception`

  /** The two messages written to the error log. */
  datatype LogMessage = NoPermissions | DirectoryNotCreated(dir: string)

  /** The two error dialogs, both titled "Whoops!" with one "OK" button. */
  datatype DialogMessage = DirectoryFailed | ImageNotSaved

  datatype Effect =
    | Log(log: LogMessage)      // Log.e with tag "ERROR"
    | MakeDirs(dir: string)
    | Dialog(dialog: DialogMessage)
    | WritePng(path: string)    // open the file, compress the drawing cache as PNG at quality 100, close
    | PrintStackTrace
    | Toast(path: string)       // "<path> saved!", shown for a long duration
    | ScanFile(path: string)    // submitted to the media scanner

  const PICTURES_SUBDIR: string := "DoodlePictures"

  function TargetDir(input: SaveInput): string
  {
    input.picturesDir + "/" + PICTURES_SUBDIR
  }

  /** `<pictures>/DoodlePictures/<millis>.png` */
  function SavePath(input: SaveInput): string
  {
    TargetDir(input) + "/" + LongToString(input.millis) + ".png"
  }

  // The routine, stage by stage.

  /** Lines 129-133: a missing permission is logged. */
  function PermissionLog(input: SaveInput): seq<Effect>
  {
    if input.permissionGranted then [] else [Log(NoPermissions)]
  }

  /** Lines 135-136: unavailable storage ends the routine. */
  function StorageChecked(input: SaveInput): seq<Effect>
  {
    if !IsExternalStorageWritable(input.storage) && !IsExternalStorageReadable(input.storage) then []
    else DirectoryChecked(input)
  }

  /** Lines 143-153: a missing directory is made, or the routine ends with a dialog. */
  function DirectoryChecked(input: SaveInput): seq<Effect>
  {
    if !input.dirExists && !input.mkdirsSucceeds then
      [MakeDirs(TargetDir(input)), Log(DirectoryNotCreated(TargetDir(input))), Dialog(DirectoryFailed)]
    else
      MakeIfMissing(input) + WriteAndReport(input)
  }

  function MakeIfMissing(input: SaveInput): seq<Effect>
  {
    if input.dirExists then [] else [MakeDirs(TargetDir(input))]
  }

  /**
   Lines 156-181: the write; on failure a stack trace and a dialog; in any case
   (the `finally` block and the statement after it) the toast and the scan.
   */
  function WriteAndReport(input: SaveInput): seq<Effect>
  {
    var path := SavePath(input);
    if input.writeCompletes then [WritePng(path), Toast(path), ScanFile(path)]
    else [WritePng(path), PrintStackTrace, Dialog(ImageNotSaved), Toast(path), ScanFile(path)]
  }

  /** `saveCanvas`: the effects it performs, in order. */
  function SaveCanvas(input: SaveInput): (effects: seq<Effect>)
    ensures |effects| > 0 <==> !input.permissionGranted || IsExternalStorageReadable(input.storage)
  {
    PermissionLog(input) + StorageChecked(input)
  }

  // Generic facts about sequences, kept apart so the proofs below stay small.

  lemma Assoc<T>(a: seq<T>, b: seq<T>, c: seq<T>)
    ensures a + (b + c) == (a + b) + c
  {
  }

  lemma DropPrefix<T>(a: seq<T>, b: seq<T>, c: seq<T>)
    requires a + b == a + c
    ensures b == c
  {
    assert b == (a + b)[|a|..];
    assert c == (a + c)[|a|..];
  }

  lemma DropSuffix<T>(a: seq<T>, b: seq<T>, c: seq<T>)
    requires a + c == b + c
    ensures a == b
  {
    assert a == (a + c)[..|a|];
    assert b == (b + c)[..|b|];
  }

  // Properties of the routine.

  /** A save on storage that can be read, into a directory that exists or can be made. */
  predicate WriteAttempted(input: SaveInput)
  {
    IsExternalStorageReadable(input.storage) && (input.dirExists || input.mkdirsSucceeds)
  }

  function CountWrites(effects: seq<Effect>): (n: nat)
    ensures n <= |effects|
    decreases |effects|
  {
    if effects == [] then 0 else (if effects[0].WritePng? then 1 else 0) + CountWrites(effects[1..])
  }

  lemma {:induction false} CountWritesAppend(a: seq<Effect>, b: seq<Effect>)
    ensures CountWrites(a + b) == CountWrites(a) + CountWrites(b)
    decreases |a|
  {
    if a == [] {
      assert a + b == b;
    } else {
      assert (a + b)[0] == a[0];
      assert (a + b)[1..] == a[1..] + b;
      CountWritesAppend(a[1..], b);
    }
  }

  lemma {:induction false} NoWrites(effects: seq<Effect>)
    requires forall i :: 0 <= i < |effects| ==> !effects[i].WritePng?
    ensures CountWrites(effects) == 0
    decreases |effects|
  {
    if effects != [] {
      NoWrites(effects[1..]);
    }
  }

  lemma {:induction false} OneWrite(w: Effect, rest: seq<Effect>)
    requires w.WritePng?
    requires forall i :: 0 <= i < |rest| ==> !rest[i].WritePng?
    ensures CountWrites([w] + rest) == 1
  {
    assert ([w] + rest)[1..] == rest;
    NoWrites(rest);
  }

  /** At most one write is attempted: exactly one when storage and directory allow it, none otherwise. */
  lemma AtMostOneWriteAttempted(input: SaveInput)
    ensures CountWrites(SaveCanvas(input)) == if WriteAttempted(input) then 1 else 0
  {
    CountWritesAppend(PermissionLog(input), StorageChecked(input));
    NoWrites(PermissionLog(input));
    if WriteAttempted(input) {
      var wr := WriteAndReport(input);
      OneWrite(wr[0], wr[1..]);
      assert [wr[0]] + wr[1..] == wr;
      NoWrites(MakeIfMissing(input));
      CountWritesAppend(MakeIfMissing(input), wr);
    } else {
      NoWrites(StorageChecked(input));
    }
  }

  /** No step writes, shows a toast or asks for a scan. */
  predicate Silent(effects: seq<Effect>)
  {
    forall i :: 0 <= i < |effects| ==>
      !effects[i].WritePng? && !effects[i].Toast? && !effects[i].ScanFile?
  }

  /** The missing permission is logged, and only then. */
  lemma PermissionLogged(input: SaveInput)
    ensures Log(NoPermissions) in SaveCanvas(input) <==> !input.permissionGranted
  {

  }

  /** A denied permission is only logged: the rest of the routine runs as if it were granted. */
  lemma PermissionDenialDoesNotAbort(input: SaveInput)
    requires !input.permissionGranted
    ensures SaveCanvas(input) == [Log(NoPermissions)] + SaveCanvas(input.(permissionGranted := true))
  {

  }

  /** Storage that cannot be read ends the routine without any user feedback. */
  lemma UnreadableStorageIsSilent(input: SaveInput)
    requires !IsExternalStorageReadable(input.storage)
    ensures SaveCanvas(input) == PermissionLog(input)
    ensures Silent(SaveCanvas(input))
    ensures forall i :: 0 <= i < |SaveCanvas(input)| ==> !SaveCanvas(input)[i].Dialog?
  {

  }

  /** A missing directory that cannot be made ends the routine with a dialog, and nothing is written. */
  lemma DirectoryFailureShowsDialog(input: SaveInput)
    requires IsExternalStorageReadable(input.storage)
    requires !input.dirExists && !input.mkdirsSucceeds
    ensures SaveCanvas(input)[|SaveCanvas(input)| - 1] == Dialog(DirectoryFailed)
    ensures MakeDirs(TargetDir(input)) in SaveCanvas(input)
    ensures Silent(SaveCanvas(input))
  {

  }

  /**
   Once the directory is there, the PNG is written to `DoodlePictures/<millis>.png`
   and the routine ends with the toast and the scan whether or not the write
   threw; a write that throws shows a dialog just before the toast.
   */
  lemma AttemptEndsWithToastAndScan(input: SaveInput)
    requires IsExternalStorageReadable(input.storage)
    requires input.dirExists || input.mkdirsSucceeds
    ensures var effects, path := SaveCanvas(input), SavePath(input);
      && |effects| >= 3
      && effects[|effects| - 1] == ScanFile(path)
      && effects[|effects| - 2] == Toast(path)
      && WritePng(path) in effects
      && (input.writeCompletes ==> effects[|effects| - 3] == WritePng(path))
      && (!input.writeCompletes ==> effects[|effects| - 3] == Dialog(ImageNotSaved))
  {

  }

  /** The PNG at `path` is written and no "image not saved" dialog follows the write. */
  predicate SavedWithoutError(effects: seq<Effect>, path: string)
  {
    exists i :: 0 <= i < |effects| && effects[i] == WritePng(path)
      && forall j :: i < j < |effects| ==> effects[j] != Dialog(ImageNotSaved)
  }

  /**
   The file is saved without an error dialog exactly when storage and directory
   allow the write and the write throws no exception.
   */
  lemma FileSavedExactlyWhenWriteCompletes(input: SaveInput)
    ensures SavedWithoutError(SaveCanvas(input), SavePath(input))
        <==> WriteAttempted(input) && input.writeCompletes
  {
    var e, p := SaveCanvas(input), SavePath(input);
    if WriteAttempted(input) {
      var pre, w := PermissionLog(input) + MakeIfMissing(input), WriteAndReport(input);
      var k := |pre|;
      Assoc(PermissionLog(input), MakeIfMissing(input), w);
      assert e == pre + w;
      assert e[k] == WritePng(p);
      if input.writeCompletes {
        forall j | k < j < |e|
          ensures e[j] != Dialog(ImageNotSaved)
        {
          assert e[j] == w[j - k];
        }
      } else {
        assert e[k + 2] == Dialog(ImageNotSaved);
        forall i | 0 <= i < |e| && e[i] == WritePng(p)
          ensures e[k + 2] == Dialog(ImageNotSaved) && i < k + 2
        {
          if i < k {
            assert e[i] == pre[i];
          } else {
            assert e[i] == w[i - k];
          }
        }
      }
    } else if !IsExternalStorageReadable(input.storage) {
      UnreadableStorageIsSilent(input);
    } else {
      DirectoryFailureShowsDialog(input);
    }
  }

  /**
   A failed write changes only what lies between the write and the toast: the
   effects are those of the successful save with the stack trace and the
   dialog inserted right after the write.
   */
  lemma FailedWriteStillToasts(input: SaveInput)
    requires WriteAttempted(input) && !input.writeCompletes
    ensures var ok, k := SaveCanvas(input.(writeCompletes := true)), |PermissionLog(input)| + |MakeIfMissing(input)| + 1;
      SaveCanvas(input) == ok[..k] + [PrintStackTrace, Dialog(ImageNotSaved)] + ok[k..]
  {

  }

  /** Saves named at different milliseconds into the same directory target different files. */
  lemma DistinctMillisDistinctFiles(a: SaveInput, b: SaveInput)
    requires a.picturesDir == b.picturesDir
    requires SavePath(a) == SavePath(b)
    ensures a.millis == b.millis
  {
    var na, nb := LongToString(a.millis), LongToString(b.millis);
    var d := TargetDir(a) + "/";
    Assoc(d, na, ".png");
    Assoc(d, nb, ".png");
    DropPrefix(d, na + ".png", nb + ".png");
    DropSuffix(na, nb, ".png");
    LongToStringInjective(a.millis, b.millis);
  }
}
