# Doodle drawing surface — a Dafny model

This project models the logic core of the Doodle drawing app's `CanvasView`.
It covers two parts:

- **The touch-to-path state machine.** Touch-down starts a contour with
  `moveTo`. Touch-move is filtered by a per-axis tolerance of 5 units; a move
  that passes appends a `quadTo` through the midpoint between the last point and
  the touch point. Touch-up closes with a `lineTo` to the last accepted point.
  `clearCanvas` resets the path. `onTouchEvent` dispatches on the action code.
- **The decision skeleton of `saveCanvas`.** It takes the platform facts as an
  input record: permission, storage state, pictures directory, whether
  `DoodlePictures` exists, the outcome of `mkdirs` and of the write, and the
  clock. It returns the effects the routine performs, in order.

Modules:

- `Touch` (touch.dfy) holds the state machine on values. Its state is the path
  as a sequence of `MoveTo`/`QuadTo`/`LineTo` commands plus the last point
  `(mX, mY)`. It has one transition function per handler, `Run` over a sequence
  of events, and the lemmas. Its invariant `Valid` says two things. First, the
  last point is the touch point from which the path's last command was built
  (`FingerAt`). Second, every curve in the path records a move that passed the
  filter.
- `Canvas` (canvas.dfy) holds the `CanvasView` class. It has the fields `path`,
  `mX` and `mY`, and the handler methods update them in place. Each method
  states the new fields exactly and ties its new `State()` to the transition
  function of `Touch`. The constructor establishes `Valid()` and every method
  keeps it, so it holds of every object changed only through these methods,
  as the private Java fields are.
- `Decimal` (decimal.dfy) models `Long.toString` and proves it injective.
  `Digits` and `Value` form a round trip.
- `Save` (save.dfy) holds the two storage predicates over an enumeration of the
  platform's storage states, and `SaveCanvas` as a pure function from
  `SaveInput` to a list of `Effect`s. Log and dialog texts are tags
  (`LogMessage`, `DialogMessage`).

Behaviours the model keeps as the code has them:

- A denied permission is only logged; the save goes ahead.
- The "saved!" toast is shown after a failed write too.
- The media scan runs after a failed write too. In the code, `scanFile` follows
  the try/finally whatever the write's outcome (line 181).
- `clearCanvas` does not reset `mX`/`mY`. The first move after a clear is
  measured from the pre-clear last point. A move or up event on an empty path
  appends a `quadTo`/`lineTo` the same way as on a non-empty one.
- Action codes are Android's: `ACTION_DOWN` = 0, `ACTION_UP` = 1,
  `ACTION_MOVE` = 2. Any other code changes nothing, and the handler returns
  true for every event.

## Model

| member | source | states |
|---|---|---|
| Touch.OnStart | Doodle/app/src/main/java/luke/doodle/CanvasView.java:73-77 | touch-down strictly extends the path by exactly one command |
| Touch.OnMove | Doodle/app/src/main/java/luke/doodle/CanvasView.java:79-87 | a move keeps the old path as a prefix and adds at most one command; the state is unchanged exactly when both axis deltas are under the tolerance |
| Touch.OnUp | Doodle/app/src/main/java/luke/doodle/CanvasView.java:185-187 | touch-up strictly extends the path by one command and keeps the last point |
| Touch.OnTouch | Doodle/app/src/main/java/luke/doodle/CanvasView.java:190-209 | every event keeps the old path as a prefix and adds at most one command |
| Touch.StartAppendsMoveTo | Doodle/app/src/main/java/luke/doodle/CanvasView.java:73-77 | touch-down appends `MoveTo(x,y)` after the earlier strokes, without resetting the path, and makes `(x,y)` the last point |
| Touch.SmallMoveIsIgnored | Doodle/app/src/main/java/luke/doodle/CanvasView.java:79-87 | when both `|x-mX|` and `|y-mY|` are under 5, neither the path nor the last point changes |
| Touch.LargeMoveAppendsCurve | Doodle/app/src/main/java/luke/doodle/CanvasView.java:82-86 | when some axis delta is at least 5, exactly `QuadTo(mX, mY, (x+mX)/2, (y+mY)/2)` is appended, built from the old last point, and `(x,y)` becomes the last point |
| Touch.MoveIdempotent | Doodle/app/src/main/java/luke/doodle/CanvasView.java:79-87 | a second move to the same point appends nothing |
| Touch.UpEndsAtLastAccepted | Doodle/app/src/main/java/luke/doodle/CanvasView.java:203-205 | an up event appends `LineTo(mX,mY)`, the last accepted point rather than the event's coordinates, and keeps the last point |
| Touch.Clear | Doodle/app/src/main/java/luke/doodle/CanvasView.java:89-93 | clearing leaves an empty path and keeps the last point |
| Touch.ClearIdempotent | Doodle/app/src/main/java/luke/doodle/CanvasView.java:89-93 | clearing leaves an empty path whatever it held and keeps the last point; clearing twice equals clearing once |
| Touch.OtherActionIgnored | Doodle/app/src/main/java/luke/doodle/CanvasView.java:194-207 | an action code other than down, move and up leaves the path and last point unchanged |
| Touch.OnTouchPreservesValid | Doodle/app/src/main/java/luke/doodle/CanvasView.java:190-209 | every event keeps the invariant: the last point is the one the last command was built from, and every curve passed the tolerance filter |
| Touch.ClearPreservesValid | Doodle/app/src/main/java/luke/doodle/CanvasView.java:89-93 | clearing keeps the invariant |
| Touch.InitialValid | Doodle/app/src/main/java/luke/doodle/CanvasView.java:31-47 | the freshly constructed state (empty path, last point 0,0) satisfies the invariant |
| Touch.RunPreservesValid | Doodle/app/src/main/java/luke/doodle/CanvasView.java:190-209 | any sequence of events from a valid state ends in a valid state |
| Touch.LastPointFollowsPath | Doodle/app/src/main/java/luke/doodle/CanvasView.java:73-87 | after any events, the last point can be recovered from the path's last command |
| Touch.RunKeepsPrefix | Doodle/app/src/main/java/luke/doodle/CanvasView.java:190-209 | touch events never remove anything: the earlier path is a prefix of the later one |
| Touch.RunLengthBounds | Doodle/app/src/main/java/luke/doodle/CanvasView.java:190-209 | each event adds at most one command, and each down or up event exactly one |
| Touch.SmallMovesAreIgnored | Doodle/app/src/main/java/luke/doodle/CanvasView.java:79-87 | a sequence of moves, each under the tolerance on both axes from the last point, leaves the state unchanged |
| Touch.Scenario | Doodle/app/src/main/java/luke/doodle/CanvasView.java:190-209 | down (10,10), move (20,10), move (21,10), up appends `MoveTo(10,10)`, `QuadTo(10,10,15,10)` and `LineTo(20,10)`, and leaves the last point at (20,10) |
| Canvas.CanvasView.constructor | Doodle/app/src/main/java/luke/doodle/CanvasView.java:38-58 | a new view has an empty path and last point (0,0) |
| Canvas.CanvasView.OnStartTouch | Doodle/app/src/main/java/luke/doodle/CanvasView.java:73-77 | appends `MoveTo(x,y)` to the path field and sets `mX, mY` to `x, y` |
| Canvas.CanvasView.MoveTouch | Doodle/app/src/main/java/luke/doodle/CanvasView.java:79-87 | appends the midpoint curve and moves `(mX, mY)` exactly when some axis delta is at least 5, and otherwise leaves all fields unchanged |
| Canvas.CanvasView.UpTouch | Doodle/app/src/main/java/luke/doodle/CanvasView.java:185-187 | appends `LineTo(mX, mY)` and leaves `mX, mY` unchanged |
| Canvas.CanvasView.ClearCanvas | Doodle/app/src/main/java/luke/doodle/CanvasView.java:89-93 | empties the path and leaves `mX, mY` unchanged |
| Canvas.CanvasView.OnTouchEvent | Doodle/app/src/main/java/luke/doodle/CanvasView.java:189-209 | always returns true; the new state is the dispatch of the action; any other action leaves every field unchanged |
| Canvas.ScenarioOnFreshView | Doodle/app/src/main/java/luke/doodle/CanvasView.java:190-209 | a fresh view fed the four scenario events holds exactly the three expected commands, with last point (20,10) |
| Save.IsExternalStorageWritable | Doodle/app/src/main/java/luke/doodle/CanvasView.java:96-112 | storage reported writable is also reported readable; read-only storage is reported readable but not writable |
| Save.EarlyReturnExactlyWhenUnreadable | Doodle/app/src/main/java/luke/doodle/CanvasView.java:135-136 | "neither writable nor readable" holds exactly when the storage is not readable |
| Save.SaveCanvas | Doodle/app/src/main/java/luke/doodle/CanvasView.java:127-183 | the routine does something visible exactly when the permission is missing or the storage is readable |
| Save.PermissionLogged | Doodle/app/src/main/java/luke/doodle/CanvasView.java:129-133 | the "NO PERMISSIONS" error is logged exactly when the permission is not granted |
| Save.PermissionDenialDoesNotAbort | Doodle/app/src/main/java/luke/doodle/CanvasView.java:129-137 | with the permission denied, the effects are the log entry followed by everything the save does with the permission granted |
| Save.UnreadableStorageIsSilent | Doodle/app/src/main/java/luke/doodle/CanvasView.java:135-136 | on unreadable storage the only effect is the permission log, if any: no write, toast, scan or dialog |
| Save.DirectoryFailureShowsDialog | Doodle/app/src/main/java/luke/doodle/CanvasView.java:143-152 | when the directory is missing and `mkdirs` fails, `mkdirs` is attempted, the last effect is the "Failed to create directory" dialog, and nothing is written, toasted or scanned |
| Save.AttemptEndsWithToastAndScan | Doodle/app/src/main/java/luke/doodle/CanvasView.java:156-181 | otherwise the PNG is written to `DoodlePictures/<millis>.png`, and the routine ends with the toast and the scan of that path whether or not the write threw an `Exception`; a write that throws puts the "Image not saved" dialog just before the toast |
| Save.FailedWriteStillToasts | Doodle/app/src/main/java/luke/doodle/CanvasView.java:158-181 | a failed write's effects are the successful write's with the stack trace and the dialog inserted right after the write |
| Save.AtMostOneWriteAttempted | Doodle/app/src/main/java/luke/doodle/CanvasView.java:143-181 | a save attempts exactly one write when storage is readable and the directory exists or can be made, and none otherwise |
| Save.FileSavedExactlyWhenWriteCompletes | Doodle/app/src/main/java/luke/doodle/CanvasView.java:135-181 | the PNG at the save path is written with no "Image not saved" dialog after it exactly when the write is attempted and lines 160-165 throw no `Exception` |
| Save.DistinctMillisDistinctFiles | Doodle/app/src/main/java/luke/doodle/CanvasView.java:156 | two saves into the same pictures directory target the same file only if named at the same millisecond |
| Decimal.Digits | Doodle/app/src/main/java/luke/doodle/CanvasView.java:156 | the rendering of a non-negative number is non-empty, all decimal digits, and has no leading zero |
| Decimal.ValueOfDigits | Doodle/app/src/main/java/luke/doodle/CanvasView.java:156 | the digits of `n` denote `n` (round trip of the rendering) |
| Decimal.LongToString | Doodle/app/src/main/java/luke/doodle/CanvasView.java:156 | the rendering of a `long` is non-empty and starts with '-' exactly when the value is negative |
| Decimal.LongToStringInjective | Doodle/app/src/main/java/luke/doodle/CanvasView.java:156 | distinct `long` values have distinct renderings |

## Left out

- Rendering: `onDraw`, the `Paint` configuration (colour, width, joins, caps), the drawing cache and every `invalidate()` re-render request. These are graphics calls with no logic to model.
- `onSizeChanged`: it only calls the superclass.
- IEEE `float` coordinates. The model uses exact reals, so float rounding in the tolerance test and the midpoint is not captured.
- The `Path` object itself: the model records the appended commands only. Android's geometry is not modelled, such as the implicit start at (0,0) for a `quadTo` on an empty path.
- The PNG encoding and file I/O (`FileOutputStream`, `Bitmap.compress`, `close`), plus `File.exists` and `mkdirs`. Their outcomes are the booleans of `SaveInput`. Any `Exception` thrown in lines 160-165, including the `NullPointerException` of an absent drawing cache, is the single `writeCompletes = false`. A partial file left behind by a failed `compress` is not modelled.
- The `false` result of `Bitmap.compress` (line 163): the code ignores it, so such a save is `writeCompletes = true`, with the toast and the scan and no dialog. The model does not tell a file left empty or incomplete from a good one.
- A `Throwable` that is not an `Exception` (such as `OutOfMemoryError`) thrown in lines 160-165: `catch (Exception e)` (line 167) does not catch it, so the `finally` shows the toast (line 177) and the error then propagates, skipping `scanFile` (line 181). No `SaveInput` produces this path.
- Path formatting by `java.io.File`: the pictures directory is an input string, joined with "/" as given, with no normalisation of separators.
- `AlertDialog`, `Toast`, `Log` and `printStackTrace`: these appear only as tags in the effect list.
- The media scanner's asynchronous completion callback and its log line. `ScanFile` records only that the path was submitted.
- The permission system, `Environment.getExternalStorageState`, `getExternalStoragePublicDirectory` and `System.currentTimeMillis`. These are fields of `SaveInput`, not modelled themselves. The storage state is an enumeration of the platform's documented states rather than the raw string.
- `MainActivity.java` is not part of this model: it only forwards two button callbacks to `clearCanvas` and `saveCanvas`.
