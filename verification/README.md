# Swift-Colab, modelled and proved in Dafny

Swift-Colab is a Jupyter kernel for Swift. The kernel drives LLDB, which runs the user's cells in a second process; the
two talk over pipe files, with the second process's standard output as a side channel. This project models that
rendezvous and the other state machines, parsers and codecs of the kernel, and proves what they are meant to guarantee.

`dafny verify dfyconfig.toml` checks everything (Dafny 4.11).

| file | what it models |
|---|---|
| `Rendezvous.dfy`, `Guarantees.dfy` | the protocol of cells: client, callers left over by earlier cells, background thread and kernel as interleaved atomic steps; order, matching, completeness, classification and progress over every run of any number of cells |
| `CellExecution.dfy` | the polling loop over real text and the life of a cell from reset to report |
| `Stdout.dfy` | the kernel's reading of standard output: markers, recursion, message queue, header |
| `Messages.dfy`, `Answers.dfy` | the two calls, their labels, their replies; which answer comes back to whom over every run |
| `Framing.dfy` | the byte format of the pipe files and their readers and writers |
| `Generations.dfy` | generations of pipe files, shared by any number of processes and threads |
| `Validation.dfy`, `PipeFiles.dfy` | what validation stops; what resetting and opening do; conservation of frames between two fetches |
| `Preprocess.dfy` | magic commands, includes and location directives |
| `PackageIndex.dfy` | package IDs and the index files |
| `Flags.dfy` | the flags passed to SwiftPM |
| `Toolchain.dfy` | the toolchain cache of the installation script |
| `StackFrame.dfy`, `StackTrace.dfy` | stack frames passed from C++ to Swift as blocks of memory, and their text |
| `CrashMessage.dfy` | the crash message a cell left on stderr |
| `CompileError.dfy`, `CompileReport.dfy` | colouring of compile errors |
| `Subprocess.dfy` | shell commands under a pseudoterminal |
| `FrontEnd.dfy` | numbered requests to the notebook's front end |
| `Text.dfy`, `Numerals.dfy`, `Ansi.dfy`, `Selection.dfy`, `Wrappers.dfy` | strings, numbers, SGR sequences and what a terminal shows of them, positions in sequences, Option |

How the layers fit: `Framing` shows that a pipe file is a FIFO of whole messages, `Generations` that the files of one
generation are written and read by processes of that generation only, and `Stdout` that `sendStdout` is one pass over
the output, serving the messages in turn. `Rendezvous` takes pipes, markers and messages at that level, one atomic
step of the source at a time. `Guarantees.SendStdoutDisplays` and `KernelStepsDisplay` tie its kernel steps back to
`Stdout`. `CellExecution` runs the polling loop on real text, cut anywhere by its polls, and on the kernel's own fields.

What the rendezvous assumes of its surroundings: a cell makes one call at a time; a frame is written whole; a poll
splits neither a marker nor the header; the header is printed whole, by the standard library's `print` and not one that an
earlier cell declared; ordinary text spells no marker; output printed before `execute` returns is visible to the next
`get_stdout`; nothing prints between two cells; a caller left over by an earlier cell does nothing but poll, and nothing
more once it has a reply. Progress is proved for kernel steps that drain all there is, and needs the other parties to do
nothing. Both sides write the marker as `"\033[>>>"`, which in Swift is NUL followed by `33[>>>`; that NUL occurs nowhere
else in a marker is what keeps markers apart.

Where the code and what it says about itself differ, the model follows the code:

- a call that was waiting when its cell was cut down goes on polling; `validateCounter` does not stop it, because the
  cached counter belongs to its process (`Generations.LeftOverThreadSteals`, `ReadTakesNewerExactly`), and it can take
  the reply to a call of a later cell (`Guarantees.EveryCallGetsItsReply`, with the exact condition, and `ReplyIsStolen`);
- two kernels that reset at the same time can share a generation (`Generations.ResetIsFresh`, with the exact condition,
  and `TwoKernelsShareAGeneration`), and one that is slow to write the counter can make an outdated process pass
  validation, which else stops every one (`Validation.OutdatedProcessIsStopped`, `CounterComesBack`);
- a cell interrupted before it has printed its header is reported as if it had not compiled
  (`Guarantees.FailureIsClassified`, `InterruptedBeforeHeader`);
- a compile error without a title is taken apart wrongly unless it starts with an error (`CompileReport.PrintedLooks`,
  `UntitledStartsWithError`);
- a cell interrupted between a start marker and its frame leaves the kernel polling for ever
  (`Guarantees.CompletionCondition`);
- `%include` without a path traps instead of reporting its usage (`Preprocess.IncludeOfNothingTraps`);
- a crash line that ends right behind its second colon, and a compile error that ends right behind its third, trap
  although the comment or the guard means to accept them (`CrashMessage.TrapsExactly`, `CompileError.LineTrapsExactly`);
- a compile error that is not recognised loses its leading `error: ` or `warning: ` (`CompileError.LineLooksAs`);
- an empty package spec, or one with a newline, breaks the stability of IDs (`PackageIndex.StableExactlyForStorable`);
- the guard that compares the loaded index path with the install location compares unlike things, so the index is read
  again on every install, and a location that is the last index path makes the install fail
  (`PackageIndex.Installer.ProcessInstall`);
- the installation script without an argument moves the folder of all toolchains into the place of the active one, and the
  next run may download what is there (`Toolchain.NoArgumentMisplaces`, `NextRunForgets`).

## Model

| member | source | states |
|---|---|---|
| `Guarantees.NotebookSeesProgramOrder` | Sources/JupyterKernel/SwiftKernel/HandleIO.swift:34-113 | trace refinement over every run of any number of cells, callers left over by earlier ones included: what the notebook has seen (characters, clears, calls) is always a prefix of what the cell did, in the order the cell did it; when the kernel is done with the cell it is all of it, once, and no output is left |
| `Guarantees.EveryCallGetsItsReply` | Sources/JupyterKernel/SwiftShell.swift:131-148 | after any run of any number of cells, for every way to go on with the next cell: no check fails, each pipe holds at most one unread frame, and every caller gets the reply to its own request, of the kind its decoder demands, if and only if no caller of an earlier cell still polls |
| `Guarantees.RunsWithoutLeftOversMatch` | Sources/JupyterKernel/SwiftShell.swift:58-69 | so it is throughout every run in which each call that was waiting got its reply before the next cell began |
| `Guarantees.CallerIsLeftOver` | Sources/JupyterKernel/SwiftKernel/KernelContext.swift:130-133 | a run that leaves a caller over: the first cell is cut down while its call waits |
| `Guarantees.TheftHappens` | Sources/JupyterKernel/SwiftKernel/KernelContext.swift:130-133 | from any reachable start of a cell with a caller left over, it can take the reply to the first call, and a decoder check fails exactly when the kinds of the calls differ |
| `Guarantees.ReplyIsStolen` | Sources/JupyterKernel/SwiftShell.swift:133-146 | the whole failing run, from the first cell on |
| `Guarantees.RobbedWaitsForEver` | Sources/JupyterKernel/SwiftShell.swift:137-146 | a caller whose reply was taken gets none in its cell, whatever happens |
| `Guarantees.FailureIsClassified` | Sources/JupyterKernel/SwiftKernel/DoExecute.swift:59-113 | a failed cell of a living process takes the stack-trace or interrupt branch exactly when it had printed its header, and the compile-error branch exactly when it did not compile or was cut down before that |
| `Guarantees.InterruptedBeforeHeader` | Sources/JupyterKernel/SwiftKernel/InitSwift.swift:93-97 | such a run: interrupted between its start and its header, a cell that compiled is reported as one that did not |
| `Guarantees.StatusIsHonest` | Sources/JupyterKernel/SwiftKernel/PreprocessAndExecute.swift:46-82 | over every run: the kernel returns a status only of a cell that has ended, and it is how that cell ended |
| `Guarantees.KernelNeverJams` | Sources/JupyterKernel/SwiftKernel/PreprocessAndExecute.swift:19-43 | in every state the invariant allows, unless a check has failed, the kernel has a step to take until it returns |
| `Guarantees.EveryStepBringsTheReplyNearer` | Sources/JupyterKernel/SwiftKernel/HandleIO.swift:70-83 | while a call waits and has not been robbed, every kernel step lowers a measure or delivers the reply, the marker-before-frame cache miss included |
| `Guarantees.ReplyArrives` | Sources/JupyterKernel/SwiftShell.swift:61-69 | from every state in which a call waits and has not been robbed, its reply becomes readable within as many kernel steps as the measure says, and the call goes on |
| `Guarantees.EveryStepBringsTheEndNearer` | Sources/JupyterKernel/SwiftKernel/PreprocessAndExecute.swift:19-43 | once the result is published, every kernel step lowers a measure, if the cell was not cut down between a marker and its frame |
| `Guarantees.CellReturns` | Sources/JupyterKernel/SwiftKernel/PreprocessAndExecute.swift:40-42 | so `preprocessAndExecute` returns, within that many steps |
| `Guarantees.KernelNeverReturns` | Sources/JupyterKernel/SwiftKernel/HandleIO.swift:72-79 | a cell that ended after printing a marker and before sending its frame leaves the kernel in the cache-miss loop in every continuation |
| `Guarantees.CompletionCondition` | Sources/JupyterKernel/SwiftKernel/HandleIO.swift:70-83 | for every reachable state with a published result in which no check has failed: the kernel can return if and only if the cell was not cut down at that one point |
| `Guarantees.CutShortIsReachable` | Sources/JupyterKernel/SwiftShell.swift:134-135 | that point is reachable: a crash right after the first start marker |
| `Guarantees.SendStdoutDisplays` | Sources/JupyterKernel/SwiftKernel/HandleIO.swift:34-66 | what `sendStdout` of unambiguous text sends is, character by character, the display the step system speaks of |
| `Guarantees.KernelStepsDisplay` | Sources/JupyterKernel/SwiftKernel/HandleIO.swift:70-83 | every kernel step between a drain and the end of a poll keeps (sent so far) + (display of the rest) the same |
| `Rendezvous.StepKeepsInv` | Sources/JupyterKernel/SwiftKernel/PreprocessAndExecute.swift:5-44 | every step of the client, left-over callers, the background thread and the kernel keeps the invariant: history split into seen and to come, place of the one outstanding frame, header, published result, replies received, age of left-over callers |
| `Rendezvous.RunKeepsInv` | Sources/JupyterKernel/SwiftShell.swift:43-71 | so does every run |
| `Rendezvous.DrainSplits` | Sources/JupyterKernel/SwiftKernel/HandleIO.swift:98-113 | a drain at any cut loses no output, and the first one starts with the header |
| `Rendezvous.ReceiveKeepsInv` | Sources/JupyterKernel/SwiftShell.swift:137-146 | taking the reply keeps the invariant; in particular exactly one reply is there and it fits the call |
| `Rendezvous.ExecuteKeepsInv` | Sources/JupyterKernel/SwiftKernel/HandleIO.swift:80-82 | executing the frame that waits executes the call the marker belongs to |
| `Rendezvous.PollKeepsInv` | Sources/JupyterKernel/SwiftKernel/PreprocessAndExecute.swift:25-42 | a poll that had read the result before it drained ends with nothing left to drain |
| `Rendezvous.StealKeepsInv` | Sources/JupyterKernel/SwiftKernel/KernelContext.swift:130-133 | after a theft nothing of the call is left in the pipes, and the reply taken is not its taker's |
| `Messages.ReplyMatchesCall` | Sources/JupyterKernel/SwiftShell.swift:260-316 | whatever the front end answers, the reply passes the decoder of the call that was made, and no decoder of another kind of call |
| `Messages.RequestIsHandedOver` | Sources/JupyterKernel/SwiftShell.swift:213-245 | executing the message of a call hands over exactly what the caller passed, for either kind of call |
| `Messages.AnswerComesBack` | Sources/JupyterKernel/SwiftShell.swift:247-276 | decoding the reply to a request gives the caller exactly what the front end answered: its error if it has one, else its data or nothing; one who sends parts is told nothing |
| `Answers.OwnAnswerComesBack` | Sources/JupyterKernel/SwiftShell.swift:43-71 | over every run of any number of cells: no message is executed twice, and whoever gets the reply to a request of its own is told what the front end answered when that very message was executed and shown |
| `Answers.StepKeepsLog` | Sources/JupyterKernel/SwiftShell.swift:213-226 | every step keeps: messages are executed in the order of their calls, and the reply on its way and each one delivered carry what was answered then |
| `Stdout.TokenizeRender` | Sources/JupyterKernel/SwiftShell.swift:199-203 | printed output can be read back if and only if no marker is spelled out in ordinary text |
| `Stdout.RecursionIsScan` | Sources/JupyterKernel/SwiftKernel/HandleIO.swift:34-66 | the recursion that looks for message markers first does exactly what one left-to-right pass over both markers does |
| `Stdout.FlattenChunks` | Sources/JupyterKernel/SwiftKernel/HandleIO.swift:34-66 | no text is lost, moved or invented, and there is one event for each marker |
| `Stdout.KthMarkTakesKthMessage` | Sources/JupyterKernel/SwiftKernel/HandleIO.swift:68-83 | the k-th marker executes the k-th message, the rest stays queued, and the kernel waits for ever exactly when messages run out |
| `Stdout.NoOverlap` | Sources/JupyterKernel/SwiftKernel/HandleIO.swift:40-48 | an occurrence of a marker never lies inside another one, because NUL occurs only at the start of either |
| `Stdout.ScanAround` | Sources/JupyterKernel/SwiftKernel/HandleIO.swift:35-39 | the pass splits in two at any marker |
| `Stdout.StdoutHandler.ExecuteNextMessage` | Sources/JupyterKernel/SwiftKernel/HandleIO.swift:70-83 | polls past any number of empty batches; executes and answers the first message of queue and pipe together and removes it, or waits for ever when there is none |
| `Stdout.StdoutHandler.WithRange` | Sources/JupyterKernel/SwiftKernel/HandleIO.swift:35-39 | the part before the marker, its action, the part after it: as one pass over the whole |
| `Stdout.StdoutHandler.SendStdout` | Sources/JupyterKernel/SwiftKernel/HandleIO.swift:34-66 | responses and queue afterwards are those of one left-to-right pass over the text; every message executed so far is answered once, in order |
| `Stdout.StdoutHandler.GetStdout` | Sources/JupyterKernel/SwiftKernel/HandleIO.swift:17-32 | collects what is available up to the first empty read |
| `Stdout.AvailableIsFirst` | Sources/JupyterKernel/SwiftKernel/HandleIO.swift:17-32 | that is exactly what comes before the first empty read |
| `Stdout.StdoutHandler.GetAndSendStdout` | Sources/JupyterKernel/SwiftKernel/HandleIO.swift:98-113 | drops one leading header from the first output of a cell, refuses first output without it, and sends the rest |
| `Stdout.StdoutHandler.FlushMessages` | Sources/JupyterKernel/SwiftKernel/HandleIO.swift:85-88 | forgets messages of the last cell and nothing that is still in the pipe |
| `CellExecution.PiecesRead` | Sources/JupyterKernel/SwiftKernel/HandleIO.swift:17-66 | two pieces of output read as the whole does if and only if no marker lies across the cut |
| `CellExecution.PiecesAmount` | Sources/JupyterKernel/SwiftKernel/HandleIO.swift:34-83 | however the output was cut outside of markers, the notebook shows, and the queue is left with, what one pass over all of it gives |
| `CellExecution.PollOnce` | Sources/JupyterKernel/SwiftKernel/HandleIO.swift:98-113 | one poll extends the output dealt with by what it read, or runs out of messages in it, or finds first output without a header |
| `CellExecution.Turn` | Sources/JupyterKernel/SwiftKernel/PreprocessAndExecute.swift:19-43 | one turn of the loop: the result is looked at before the drain |
| `CellExecution.PreprocessAndExecute` | Sources/JupyterKernel/SwiftKernel/PreprocessAndExecute.swift:19-43 | for polls that read what the cell writes: ends with the first one that saw the result before it drained, and the texts handed to `sendStdout` are then exactly all that the cell wrote, minus one leading header, once and in order; and exactly how else it ends |
| `CellExecution.AllIsShown` | Sources/JupyterKernel/SwiftKernel/PreprocessAndExecute.swift:19-43 | what the notebook shows for the cell is the display of its output behind the header, and the queue has lost one message for each marker |
| `CellExecution.Kernel.GetStderr` | Sources/JupyterKernel/SwiftKernel/HandleIO.swift:117-137 | returns exactly what was written since the last call, or skips it |
| `CellExecution.Kernel.Reset` | Sources/JupyterKernel/SwiftKernel/DoExecute.swift:20-28 | nothing is left of earlier cells: messages taken but not executed, interrupt, header flag, unread errors |
| `CellExecution.Kernel.ReportError` | Sources/JupyterKernel/SwiftKernel/DoExecute.swift:71-110 | what is shown for a failed cell is what its report calls for, made of its new errors or of the compiler's message |
| `CellExecution.Kernel.DoExecute` | Sources/JupyterKernel/SwiftKernel/DoExecute.swift:20-113 | what is reported is a function of this cell alone: its magic commands, its result, what it wrote and its own errors; with a failed or interrupted command it is not run |
| `CellExecution.NotebookIsTold` | Sources/JupyterKernel/SwiftKernel/DoExecute.swift:59-113 | for every run of the step system that ends a cell: the notebook is sent a value exactly if the cell succeeded with one, and then its description; nothing exactly if it succeeded without one, or was interrupted behind its header with no errors; that the process was killed, and the kernel exits, exactly if it failed and the process is dead; else the crash message with the frames, or the compiler's message exactly if it did not compile or was cut down before its header |
| `CellExecution.CommandEndsCell` | Sources/JupyterKernel/SwiftKernel/DoExecute.swift:36-57 | if the first failing line is an install or system command, the cell ends as that command did: in silence when interrupted, with an error shown at that line when rejected, and with any other exception thrown on |
| `CellExecution.CommandFailureIsLocated` | Sources/JupyterKernel/SwiftKernel/DoExecute.swift:40-48 | the error of any magic command is shown to be in this cell and at the first line whose command failed |
| `CellExecution.Kernel.ReportCrash` | Sources/JupyterKernel/SwiftKernel/DoExecute.swift:78-91 | what is shown is the crash message from the new errors, then the frames; nothing for an interrupt without errors |
| `CellExecution.HeaderIsPrinted` | Sources/JupyterKernel/SwiftKernel/PreprocessAndExecute.swift:46-62 | what the first line of every cell prints is the header that the kernel looks for |
| `Framing.ParseInvertsFrames` | Sources/JupyterKernel/SwiftKernel/KernelContext.swift:254-286 | bytes parse to these messages if and only if they are the frames of these messages |
| `Framing.ParseFrames` | Sources/JupyterKernel/SwiftKernel/KernelContext.swift:209-286 | parsing the frames of any payloads gives them back and runs on into what follows |
| `Framing.FramesOfParsed` | Sources/JupyterKernel/SwiftKernel/KernelContext.swift:273-281 | bytes that parse are exactly the frames of what they parse to |
| `Framing.FrameLayout` | Sources/JupyterKernel/SwiftKernel/KernelContext.swift:215-222 | a frame is eight bytes of count, the lowest first, and then the payload |
| `Framing.FirstInFirstOut` | Sources/JupyterKernel/SwiftKernel/KernelContext.swift:209-286 | however sends and receives interleave, none is malformed, and received plus pending is the list of non-empty payloads sent, in order |
| `Framing.DecodeEncodeCount` | Sources/JupyterKernel/SwiftKernel/KernelContext.swift:220-221 | a count within range is read back from its header |
| `Framing.PipeFile.Send` | Sources/JupyterKernel/SwiftKernel/KernelContext.swift:209-228 | appends one frame, or nothing for empty data |
| `Framing.PipeFile.Read` | Sources/JupyterKernel/SwiftKernel/KernelContext.swift:244-250 | copies at most a buffer of bytes and moves the offset by as many; zero only at the end |
| `Framing.PipeFile.RecvRaw` | Sources/JupyterKernel/SwiftKernel/KernelContext.swift:234-252 | ends, with all that was unread and all frames that arrived meanwhile, in any split into reads |
| `Framing.PipeFile.Separate` | Sources/JupyterKernel/SwiftKernel/KernelContext.swift:259-285 | the offset loop computes the parse, malformed ends included |
| `Framing.PipeFile.Recv` | Sources/JupyterKernel/SwiftKernel/KernelContext.swift:254-286 | on a file that only `send` wrote: never malformed, exactly the pending and newly arrived payloads, nothing half-read |
| `Generations.StepKeepsInv` | Sources/JupyterKernel/SwiftKernel/KernelContext.swift:130-252 | every step of any number of processes and threads, each read(2) and both halves of the counter's update being one, keeps: handles and names belong to their generation, files hold frames of their generation only |
| `Generations.ReadsOwnGeneration` | Sources/JupyterKernel/SwiftKernel/KernelContext.swift:176-252 | with validation and access as separate steps, whatever a process reads with generation g cached was written by a process of the other kind that had g cached |
| `Generations.ResetIsFresh` | Sources/JupyterKernel/SwiftKernel/KernelContext.swift:154-194 | as long as the counter has only been counted up: a reset starts a generation that no file has had and no process has cached if and only if nobody has written the counter since that reset read it |
| `Generations.ResetsOneAtATimeAreFresh` | Sources/JupyterKernel/SwiftKernel/KernelContext.swift:154-167 | every reset of every run does so in which kernels reset one at a time |
| `Generations.TwoKernelsShareAGeneration` | Sources/JupyterKernel/SwiftKernel/KernelContext.swift:154-167 | a run in which two do not, and one empties the files of the other |
| `Generations.StepKeepsOrder` | Sources/JupyterKernel/SwiftKernel/KernelContext.swift:138-207 | every step keeps, as long as the counter has only been counted up: exactly the generations up to it have files, none cached or begun lies ahead |
| `Generations.ThreadReadsItsOwnCall` | Sources/JupyterKernel/SwiftKernel/KernelContext.swift:130-138 | what a thread reads belongs to the generation its call began in if and only if its process has not fetched another one since |
| `Generations.LeftOverThreadSteals` | Sources/JupyterKernel/SwiftKernel/KernelContext.swift:130-138 | the comment says otherwise: from every reachable state whose counter has only been counted up, any thread in the middle of a call can outlive its generation, pass validation and take a frame of a newer one |
| `Generations.ReadTakesNewerExactly` | Sources/JupyterKernel/SwiftKernel/KernelContext.swift:234-252 | a read does so if and only if its process has fetched since its call began and anything is unread |
| `Generations.ZombieReadsNewGeneration` | Sources/JupyterKernel/SwiftKernel/KernelContext.swift:130-138 | the whole run: a thread of generation 0 reads a frame of generation 1 |
| `Generations.CallsBegin` | Sources/JupyterKernel/SwiftKernel/KernelContext.swift:196-207 | such a state is reachable |
| `Validation.OutdatedProcessIsStopped` | Sources/JupyterKernel/SwiftKernel/KernelContext.swift:130-138 | over every run in which the counter is only counted up, from any state in which a process is outdated and until it loads the counter: none of its threads that are about to validate, or come later, ever reads or writes, and the first validation of one is the end of the process |
| `Validation.OutdatedAccessesNothing` | Sources/JupyterKernel/SwiftKernel/KernelContext.swift:176-181 | the same for every run, orderly or not, for as long as the cached counter is not the counter |
| `Validation.ValidationStopsExactly` | Sources/JupyterKernel/SwiftKernel/KernelContext.swift:176-181 | a validation ends the process if and only if its cached counter is not the counter; otherwise its thread may go on |
| `Validation.BehindStaysOutdated` | Sources/JupyterKernel/SwiftKernel/KernelContext.swift:154-181 | an outdated process stays so until it loads the counter, as long as that is only counted up |
| `Validation.CounterComesBack` | Sources/JupyterKernel/SwiftKernel/KernelContext.swift:154-181 | that condition is needed: a run in which a kernel is slow to write the counter and an outdated process passes validation |
| `PipeFiles.ResetStartsEmpty` | Sources/JupyterKernel/SwiftKernel/KernelContext.swift:185-194 | a reset leaves two empty files of its generation, takes the names from those of the one before, and from no others |
| `PipeFiles.OpeningFailsExactly` | Sources/JupyterKernel/SwiftKernel/KernelContext.swift:197-207 | opening the files stops a process if and only if the one it reads from has lost its name, so never one that has loaded the current counter; otherwise it reads the file that the other kind writes to, from its start, and writes to the other |
| `PipeFiles.FramesAreConserved` | Sources/JupyterKernel/SwiftKernel/KernelContext.swift:209-252 | for any number of processes and threads, as long as the counter is only counted up: from the moment a process opens its files until it fetches again, all that its threads read, then what is unread, is what the file held and then all that was sent to it: nothing lost, read twice or reordered, even by a reset |
| `PipeFiles.StepConserves` | Sources/JupyterKernel/SwiftKernel/KernelContext.swift:183-252 | and so it is at every single step |
| `Preprocess.EveryLineKeepsItsLocation` | Sources/JupyterKernel/SwiftKernel/PreprocessAndExecute.swift:46-190 | for any mix of directives: every ordinary line is reported at its own number, every line of an included file at that file and its number there, a blank at the number of each magic command, and nothing else but the header print |
| `Preprocess.LocateLines` | Sources/JupyterKernel/SwiftKernel/PreprocessAndExecute.swift:90-101 | the same for the lines from any index on |
| `Preprocess.LocateInclude` | Sources/JupyterKernel/SwiftKernel/PreprocessAndExecute.swift:184-189 | an include reads as its file, then the blank, then goes on at the next line of the cell |
| `Preprocess.SwiftLocatesEveryLine` | Sources/JupyterKernel/SwiftKernel/PreprocessAndExecute.swift:82-88 | the same with directives in the very spelling that is written, read by a parser of that syntax |
| `Preprocess.DirectiveReadsBack` | Sources/JupyterKernel/SwiftKernel/PreprocessAndExecute.swift:84-88 | a location directive is read back as the file and line it was written for |
| `Preprocess.ArgumentExactly` | Sources/JupyterKernel/SwiftKernel/PreprocessAndExecute.swift:107-139 | matching a line with a command inverts writing it: white space, the command, a space, and any argument |
| `Preprocess.CommandLineRuns` | Sources/JupyterKernel/SwiftKernel/PreprocessAndExecute.swift:107-130 | any of the four install commands or %system, behind any white space and with any argument: the command is run with exactly that argument, and the line becomes blank, an error at its index, or an exception, as the command ends |
| `Preprocess.IncludeLineIsRead` | Sources/JupyterKernel/SwiftKernel/PreprocessAndExecute.swift:132-190 | an include line is replaced exactly if its one word names a file in one of the two folders, the first taking precedence, by that file between two location directives; exactly no word traps, all else is an error at its index |
| `Preprocess.OtherLinesStay` | Sources/JupyterKernel/SwiftKernel/PreprocessAndExecute.swift:107-141 | a line of none of these shapes is left as it is |
| `Preprocess.FailsAtFirst` | Sources/JupyterKernel/SwiftKernel/PreprocessAndExecute.swift:93-99 | preprocessing that fails has the outcome of the first line that is not replaced, all before it being replaced |
| `Preprocess.ReplacedExactly` | Sources/JupyterKernel/SwiftKernel/PreprocessAndExecute.swift:90-101 | a cell is replaced if and only if each of its lines is |
| `Preprocess.FailuresAreReported` | Sources/JupyterKernel/SwiftKernel/PreprocessAndExecute.swift:90-190 | otherwise the outcome is that of the first failing line, and an error that has a line index has that one |
| `Preprocess.LineFailures` | Sources/JupyterKernel/SwiftKernel/PreprocessAndExecute.swift:103-190 | which lines trap (exactly an include with no argument), which are interrupted (exactly a command that is), and whose index an error has |
| `Preprocess.IncludeOfNothingTraps` | Sources/JupyterKernel/SwiftKernel/PreprocessAndExecute.swift:149-163 | such a line: the usage error is thrown only for too many arguments, and `parsed[0]` traps |
| `PackageIndex.IndexRoundTrip` | Sources/JupyterKernel/SwiftPMEngine/ProcessInstalls.swift:22-47 | write then read is the identity if and only if every spec is non-empty and has no newline |
| `PackageIndex.LastIndex` | Sources/JupyterKernel/SwiftPMEngine/ProcessInstalls.swift:27-31 | what the map holds for a spec after a read: its last position |
| `PackageIndex.Installer.ReadInstalledPackages` | Sources/JupyterKernel/SwiftPMEngine/ProcessInstalls.swift:17-33 | list and map afterwards are those of the index file at the location chosen now; the map is the inverse of the list |
| `PackageIndex.Installer.WriteInstalledPackages` | Sources/JupyterKernel/SwiftPMEngine/ProcessInstalls.swift:35-47 | the file at the loaded path holds the list, or nothing changed |
| `PackageIndex.Installer.ProcessInstall` | Sources/JupyterKernel/SwiftPMEngine/ProcessInstalls.swift:96-126 | an install that gets an ID gets it from the index file as it is now and leaves exactly that file updated; one that fails leaves the files alone; and exactly when it fails |
| `PackageIndex.RunIsFaithful` | Sources/JupyterKernel/SwiftPMEngine/ProcessInstalls.swift:12-47 | over any history, every ID used names its spec in its location's index, which is free of duplicates |
| `PackageIndex.IdsAreForEver` | Sources/JupyterKernel/SwiftPMEngine/ProcessInstalls.swift:113-126 | over any sequence of installs, failed writes, location changes and restarts: a spec keeps its ID at its location, two specs there never share one, and the IDs have no gaps |
| `PackageIndex.StableExactlyForStorable` | Sources/JupyterKernel/SwiftPMEngine/ProcessInstalls.swift:25-37 | the condition is exact: IDs are stable in every run that also installs a given spec if and only if that spec is non-empty and has no newline |
| `PackageIndex.UnstorableSpecBreaks` | Sources/JupyterKernel/SwiftPMEngine/ProcessInstalls.swift:35-37 | for every other spec, a run in which IDs are not stable |
| `Toolchain.Installer.Install` | install_swift.sh:46-206 | the script, command by command, does what the transition says, and compiles each library exactly when its stamp is not the version asked for |
| `Toolchain.Installer.MoveToolchainAway` | install_swift.sh:55-60 | `mv` of the active folder, with a missing source, a missing target folder, a folder of that name already there, and no version |
| `Toolchain.Installer.Compile` | install_swift.sh:147-206 | both stamps afterwards are the version; a library is compiled exactly when its stamp was another |
| `Toolchain.RunKeepsInv` | install_swift.sh:46-206 | one run keeps every toolchain in exactly one place under its own name, never takes the first sanity exit, and ends with record and both stamps at the version |
| `Toolchain.NothingIsLost` | install_swift.sh:48-115 | over any history of runs, failed downloads included: stored folders are exactly the other versions ever downloaded, and nothing was overwritten or downloaded twice |
| `Toolchain.SanityExits` | install_swift.sh:66-74 | the first exit is unreachable, the second taken exactly for a recorded version whose download failed; neither when downloads succeed |
| `Toolchain.DownloadedIsActive` | install_swift.sh:84-115 | if all downloads succeed, the active folder, the record and both stamps are the version of the latest run |
| `Toolchain.NoArgumentMisplaces` | install_swift.sh:53-57 | a run without an argument, exactly when anything was installed before, moves the active toolchain into the collection and the collection into its place: no folder of toolchains is left, the active one holds no toolchain of its own but all ever downloaded inside it |
| `Toolchain.NextRunForgets` | install_swift.sh:53-64 | the next run with an argument puts the collection back and downloads again: the cache is in order afterwards if and only if that version had never been downloaded |
| `StackFrame.AlignIsLeast` | Sources/LLDBProcess/LLDBProcess.cpp:215-219 | the aligned size is the least multiple of four not below the size |
| `StackFrame.AlignOfWords` | Sources/LLDBProcess/LLDBProcess.cpp:231-231 | and so it is with the mask taken literally on 64-bit words |
| `StackFrame.Encode` | Sources/LLDBProcess/LLDBProcess.cpp:213-245 | the block holds the frame, whatever the memory held before, no access is out of bounds, and the last offset is the size allocated |
| `StackFrame.PutComponent` | Sources/LLDBProcess/LLDBProcess.cpp:227-231 | count and bytes at the offset, nothing before it changed |
| `StackFrame.GetPrettyStackTrace` | Sources/LLDBProcess/LLDBProcess.cpp:178-254 | one block for each frame with a source that is not compiler-generated, in order, within the space allocated |
| `StackFrame.ExtractComponent` | Sources/JupyterKernel/SwiftKernel/FormatErrors.swift:132-141 | recovers the string that occupies the block here, and moves the stream behind its padding |
| `StackFrame.Decode` | Sources/JupyterKernel/SwiftKernel/FormatErrors.swift:124-145 | recovers the frame the block holds and ends at the end of the block |
| `StackFrame.ReadStackTrace` | Sources/JupyterKernel/SwiftKernel/FormatErrors.swift:120-145 | recovers all frames, in order |
| `StackFrame.PassStackTrace` | Sources/JupyterKernel/SwiftKernel/FormatErrors.swift:96-145 | from LLDB's frames to those the notebook prints: in order, exactly those of a valid file that is not compiler-generated, each with its own line, column, function and file, and the directory if the file exists |
| `StackFrame.ShownFramesAre` | Sources/LLDBProcess/LLDBProcess.cpp:183-245 | a rising map from the frames passed on to LLDB's, whose image is exactly the frames with source, field by field |
| `StackTrace.PrettyPrintStackTrace` | Sources/JupyterKernel/SwiftKernel/FormatErrors.swift:96-182 | the loop computes the text of the trace, or fails on a string that is not UTF-8 |
| `StackTrace.TraceIsOfFrames` | Sources/JupyterKernel/SwiftKernel/FormatErrors.swift:108-182 | one line for each of LLDB's frames with source, in order and numbered from 1, made of that frame's own decoded strings and numbers, behind the source of the error and a title |
| `StackTrace.TraceFailsExactly` | Sources/JupyterKernel/SwiftKernel/FormatErrors.swift:133-145 | the trace stops the kernel exactly when a string of one of the frames shown is not UTF-8 |
| `StackTrace.FrameLooks` | Sources/JupyterKernel/SwiftKernel/FormatErrors.swift:147-180 | a frame's line shows its number, function, path, line and column in their colours; the path as in a package's checkouts, as elsewhere, or as in a cell, where a closure is one in main |
| `StackTrace.OpeningLooks` | Sources/JupyterKernel/SwiftKernel/FormatErrors.swift:108-120 | the source of the error comes first if it is known, and the title says whether frames follow |
| `StackTrace.LocationLooks` | Sources/JupyterKernel/SwiftKernel/FormatErrors.swift:216-222 | a location shows file and line in their colours |
| `CrashMessage.FetchStderr` | Sources/JupyterKernel/SwiftKernel/FormatErrors.swift:13-76 | the guards, the colon loop and the rewriting compute the specification `Fetch`, its failed index check included |
| `CrashMessage.FindColons` | Sources/JupyterKernel/SwiftKernel/FormatErrors.swift:38-51 | the loop stops at the first colon behind the slash and the first one behind that |
| `CrashMessage.ParseInvertsPrint` | Sources/JupyterKernel/SwiftKernel/FormatErrors.swift:27-74 | parsing `module/file:line: message` gives the line, the file (qualified unless the module is one of LLDB's own) and the message |
| `CrashMessage.TrapsExactly` | Sources/JupyterKernel/SwiftKernel/FormatErrors.swift:67-70 | the index check fails if and only if the line ends right behind the second colon of such a prefix |
| `CrashMessage.EmptyMessageTraps` | Sources/JupyterKernel/SwiftKernel/FormatErrors.swift:68-70 | such a line, although the comment means to accept it |
| `CrashMessage.StripColorized` | Sources/JupyterKernel/SwiftKernel/FormatErrors.swift:78-94 | colouring the label changes only how the message looks |
| `CrashMessage.ColorizedLooks` | Sources/JupyterKernel/SwiftKernel/FormatErrors.swift:78-94 | the label up to the first colon is red, the rest is not; without a colon nothing is |
| `CrashMessage.MessageExactly` | Sources/JupyterKernel/SwiftKernel/FormatErrors.swift:27-75 | a line is taken apart into source and message if and only if it consists of module, slash, file, colon, number, colon, one character and that message, the file qualified unless the module is one of LLDB's own |
| `CrashMessage.NothingIsCutWithoutTrace` | Sources/JupyterKernel/SwiftKernel/FormatErrors.swift:13-25 | without a stack trace, or with nothing above it, the lines shown are all that was written, and no source is found |
| `CrashMessage.UnlocatedIsKept` | Sources/JupyterKernel/SwiftKernel/FormatErrors.swift:23-60 | a report whose first line does not start with module, slash, file, colon, number and colon loses its trace and nothing else |
| `CrashMessage.PrefixAloneIsKept` | Sources/JupyterKernel/SwiftKernel/FormatErrors.swift:65-70 | one that starts so and has no message gives its source, and its lines are kept |
| `CrashMessage.FetchInvertsReport` | Sources/JupyterKernel/SwiftKernel/FormatErrors.swift:13-76 | from the runtime's whole report: the source is found, the stack trace is gone, the first line reads as the message, further lines are untouched |
| `Ansi.StripFormat` | Sources/JupyterKernel/SwiftKernel/FormatErrors.swift:3-11 | text put between SGR sequences reads as it was, and what follows is unaffected |
| `Ansi.PaintFormat` | Sources/JupyterKernel/SwiftKernel/FormatErrors.swift:3-11 | on a terminal, text put between SGR sequences is shown in exactly these options, and what follows in none |
| `Ansi.PaintReads` | Sources/JupyterKernel/SwiftKernel/FormatErrors.swift:3-11 | what a terminal shows has the characters of the text that is left when sequences are removed |
| `CompileError.PackageFolderExact` | Sources/JupyterKernel/SwiftKernel/FormatErrors.swift:185-213 | the folder is recognised, and what is removed is exactly the prefix an install builds, for all paths and folders |
| `CompileError.FindColons` | Sources/JupyterKernel/SwiftKernel/FormatErrors.swift:295-311 | the loop finds the first three colons |
| `Numerals.ParseIntExactly` | Sources/JupyterKernel/SwiftKernel/FormatErrors.swift:322-324 | an integer is read exactly from decimal digits behind a sign or none, within 64 bits |
| `CompileError.CutExact` | Sources/JupyterKernel/SwiftKernel/FormatErrors.swift:295-342 | a message is cut into these pieces if and only if it is them joined by colons, with none inside the first three |
| `CompileError.LineTrapsExactly` | Sources/JupyterKernel/SwiftKernel/FormatErrors.swift:322-325 | an index is out of bounds if and only if the third colon is the last character |
| `CompileError.EmptyMessageTraps` | Sources/JupyterKernel/SwiftKernel/FormatErrors.swift:322-325 | such lines, of every kind and place |
| `CompileError.DiagnosticParses` | Sources/JupyterKernel/SwiftKernel/FormatErrors.swift:273-353 | the parser inverts the printing of a diagnostic: kind, file, line, column and message |
| `CompileError.DiagnosedExactly` | Sources/JupyterKernel/SwiftKernel/FormatErrors.swift:273-353 | a line is taken for a diagnostic if and only if it consists of file, line, column, one character, label and message |
| `CompileError.AnnouncedExactly` | Sources/JupyterKernel/SwiftKernel/FormatErrors.swift:273-292 | its kind and what follows are told exactly by the label in front |
| `CompileError.LineLooksAs` | Sources/JupyterKernel/SwiftKernel/FormatErrors.swift:273-377 | any coloured line shows the line without the label in front: a diagnostic with its place reprinted and its path shortened, in bold and the colour of its kind, any other in cyan |
| `CompileError.DiagnosticLooksAs` | Sources/JupyterKernel/SwiftKernel/FormatErrors.swift:273-377 | a diagnostic as LLDB prints it shows file, line, column and message as they were printed, in bold, without the announcement and with the path shortened, and its label in red, magenta or black |
| `CompileReport.FormatCompileErrorLine` | Sources/JupyterKernel/SwiftKernel/FormatErrors.swift:273-377 | the guards and branches compute the specification `FormatLine` |
| `CompileReport.FormatNext` | Sources/JupyterKernel/SwiftKernel/FormatErrors.swift:249-270 | one turn of the switch |
| `CompileReport.FormatCompileError` | Sources/JupyterKernel/SwiftKernel/FormatErrors.swift:224-271 | the loop that replaces lines in place computes the specification `FormatError` |
| `CompileReport.ErrorLooks` | Sources/JupyterKernel/SwiftKernel/FormatErrors.swift:224-271 | for ESC-free input: n lines become n, or n + 1 when the first starts with `error: `; every source and suggestion line is shown as it was, every caret line bold and green |
| `CompileReport.FromFailsExactly` | Sources/JupyterKernel/SwiftKernel/FormatErrors.swift:251-256 | formatting stops the kernel if and only if one of the lines taken for messages does |
| `CompileReport.ReportsLook` | Sources/JupyterKernel/SwiftKernel/FormatErrors.swift:247-270 | in any list of diagnostics as LLDB prints them, the lines taken for messages are exactly their messages, and each other line is shown as its place in a diagnostic asks |
| `CompileReport.PrintedLooks` | Sources/JupyterKernel/SwiftKernel/FormatErrors.swift:224-271 | any list of diagnostics as LLDB prints them, with or without a title, is shown as one red label with the title and then place, label and message, code, green caret and suggestions of each, if and only if the text starts with `error: ` exactly when it has no title |
| `CompileReport.UntitledStartsWithError` | Sources/JupyterKernel/SwiftKernel/FormatErrors.swift:234-239 | without a title, that is if and only if the first diagnostic is an error |
| `Flags.LastIsRightmost` | Sources/JupyterKernel/SwiftPMEngine/ProcessInstallDirectives.swift:63-64 | the last occurrence of the identifier is the one found: any other lies further left |
| `Flags.ReversedSearch` | Sources/JupyterKernel/SwiftPMEngine/ProcessInstallDirectives.swift:64-65 | the leftmost occurrence in the reversed text is the rightmost one in the text |
| `Flags.CutIsRest` | Sources/JupyterKernel/SwiftPMEngine/ProcessInstallDirectives.swift:64-67 | cutting and reversing again leaves exactly what follows the last `$clear` |
| `Flags.PackageContext.ProcessSwiftPMFlags` | Sources/JupyterKernel/SwiftPMEngine/ProcessInstallDirectives.swift:49-72 | flags afterwards, whether or not the directive throws |
| `Flags.PackageContext.ProcessExtraIncludeCommand` | Sources/JupyterKernel/SwiftPMEngine/ProcessInstallDirectives.swift:77-153 | appends the `-I` words of the output, in order, and nothing when it throws |
| `Flags.FlagHistory` | Sources/JupyterKernel/SwiftPMEngine/ProcessInstallDirectives.swift:43-72 | after any history the flags are the pieces given since the most recent clear, in order, a clear whose own text was rejected included |
| `Flags.RejectedKeepsFlags` | Sources/JupyterKernel/SwiftPMEngine/ProcessInstallDirectives.swift:65-71 | a directive that throws leaves the flags as they were if and only if it clears nothing or there was nothing to clear |
| `Flags.FlagsAreAdded` | Sources/JupyterKernel/SwiftPMEngine/ProcessInstallDirectives.swift:49-72 | a text without `$clear` adds what the lexer makes of it, or nothing if that fails |
| `Flags.FlagsAreReplaced` | Sources/JupyterKernel/SwiftPMEngine/ProcessInstallDirectives.swift:62-71 | a text with one replaces all flags by what the lexer makes of the part behind the last |
| `Flags.TemplateErrorKeepsFlags` | Sources/JupyterKernel/SwiftPMEngine/ProcessInstallDirectives.swift:51-60 | a text that the template rejects changes nothing and is an error |
| `Flags.IncludesAreAdded` | Sources/JupyterKernel/SwiftPMEngine/ProcessInstallDirectives.swift:77-153 | a command adds exactly the words of its output that begin with `-I`, in order, and nothing if it or the lexer fails |
| `Subprocess.PollProcess` | Sources/JupyterKernel/SwiftKernel/HandleIO.swift:327-385 | forwards the text of what was read, remembers a lost connection, and reports a result exactly when terminated, disconnected and dry |
| `Subprocess.MonitorProcess` | Sources/JupyterKernel/SwiftKernel/HandleIO.swift:392-425 | returns in the first round in which the command has terminated, the other end is closed and nothing is left to read, unless interrupted before; then the text of all output ever written has been forwarded, in order, as far as its characters are complete, and otherwise a first part of it |
| `Subprocess.UpdatesAreNews` | Sources/JupyterKernel/SwiftKernel/HandleIO.swift:402-412 | the widget always shows the current echo setting and is never told what it already shows |
| `Subprocess.UpdatesAreChanges` | Sources/JupyterKernel/SwiftKernel/HandleIO.swift:402-412 | it is told of exactly the changes of the setting, each once and in order |
| `Subprocess.ResultIsFinished` | Sources/JupyterKernel/SwiftKernel/HandleIO.swift:378-381 | the flags the poll tests mean that the command has terminated and its output is closed and read |
| `FrontEnd.FindsFirst` | Sources/JupyterKernel/SwiftKernel/HandleIO.swift:200-222 | a search finds the first reply with its number among the reads before the deadline, and nothing exactly when there is none |
| `FrontEnd.Kernel.SendRequest` | Sources/JupyterKernel/SwiftKernel/HandleIO.swift:225-241 | a request that expects a reply has a number of its own |
| `FrontEnd.Kernel.ReadReplyFromInput` | Sources/JupyterKernel/SwiftKernel/HandleIO.swift:200-222 | the loop is that search |
| `FrontEnd.Kernel.BlockingRequest` | Sources/JupyterKernel/SwiftKernel/HandleIO.swift:270-281 | one exchange more |
| `FrontEnd.LateRepliesNeverMatch` | Sources/JupyterKernel/SwiftKernel/HandleIO.swift:200-281 | over any history of requests, whichever timed out: numbers differ, each answer bears the number of its request, no reply answers two, and a late one never answers a later request |

## Left out

- LLDB itself: compiling, running, stopping and inspecting a process are steps of the environment, as are signals; a
  runtime error, an interrupt and a crash are one step of the model.
- Python, ZeroMQ, JSON and UTF-8: `string.Template`, `shlex` and the decoding of a frame's strings are functions that may
  fail, JSON is replaced by labelled values, the four fields of a request are one text, text is a sequence of code points, and the incremental decoder of a command's output is any function from bytes
  to text to which more bytes only add; what its last, omitted flush would add is not modelled.
- Swift's grapheme clusters: the model works on code points, so it does not see that "\r\n" is one Character, which
  matters only for text that mixes a marker, a separator or a colon with combining characters or carriage returns.
- Output between two cells, a poll that splits a marker or the header, and text that spells a marker: assumed away in
  Rendezvous. Stdout.TokenizeRender says exactly which texts are read back, CellExecution.PiecesRead exactly which cuts
  do harm, and PreprocessAndExecute that first output without a whole header stops the kernel.
- A label that `execute_message` does not know stops the kernel; Stdout assumes the two labels the client can send.
- What a caller left over by an earlier cell does after it has taken a reply, and a left-over caller that stops the whole
  LLDB process when its validation fails; in Rendezvous it just goes.
- Generations.StepKeepsInv: a read returns whole frames, and the descriptor number that `recv_raw` holds over several reads
  is taken to be the one its process has open at each of them; writing the counter and making its two files is one step.
- `beforeExecution` that throws, and the mutex it then leaves locked; the mutex appears only as the atomicity of
  publishing and observing the result.
- `write` and `createFile` that write a part and fail; a write is whole or nothing.
- Stdout.StdoutHandler.ExecuteNextMessage: pipes that stay empty for ever end it with an outcome of its own, where the
  source polls without end.
- Framing.PipeFile.Recv: a file that another program has written to is not modelled beyond Separate, which stops where
  the source would read past its buffer.
- Preprocess.EveryLineKeepsItsLocation: assumes that no line of the user's is itself a location directive and that no
  path contains a newline; how the compiler recognises a directive is a parameter, of which SwiftLocatesEveryLine gives one
  value.
- Building packages, the SwiftPM manifest, the build database, symbolic links, module maps and loading of libraries in
  `processInstall`; only the ID and the index are modelled, and a failure after the index is written is not.
- Toolchain.Installer.Install: the background download that may still be unpacking when the folder is moved, and
  versions with characters that bash reads as patterns.
- The words of preprocessor errors, of the report of an exception that is thrown on, and of warnings of
  `%install-extra-include-command`; that such a report is sent before the exception is thrown on.
- CellExecution.Kernel.DoExecute: the output of magic commands, which are sent to the notebook while they run; a stack that
  LLDB fails to hand over; an empty cell, for which the pipes are not reset.
- The front end's widgets and what the user types into them, registration of the kernel, and modes of the installation:
  thin wrappers around calls into Python and the shell.
