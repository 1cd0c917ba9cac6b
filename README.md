# Mathilo, modelled in Dafny

Mathilo is a web app for practising the Polish secondary-school maths exam
(matura). A student opens a task, works on it on a whiteboard, asks an AI
tutor for hints, and submits an answer that is graded on the spot. This
project models the parts of the app that hold logic of their own. Each part
is stated as Dafny functions, methods and classes, with lemmas about them:

- **Whiteboard** (`whiteboard_history.dfy`, `whiteboard_canvas.dfy`,
  `whiteboard.dfy`). A drawing canvas sits over a grid canvas.
  - Pencil and eraser strokes are smoothed with quadratic curves through
    midpoints.
  - Undo and redo walk a linear history of raster snapshots with a cursor.
    Saving prunes the redo branch.
  - The component is the class `Whiteboard.Whiteboard`. Its methods update
    the history, the cursor, the drawing state and the canvas size in place.
  - Every canvas call the component makes is appended to a `trace`.
  - The pixels a snapshot captures are an input: `Some(snapshot)`, or `None`
    when the capture throws.
  - The grid is drawn by loops over line positions. They are proved against
    the position lists `MajorLines`/`MinorLines`.
- **Answer panel** (`answer_submission.dfy`).
  - Grading of fill-in, single-choice, multiple-choice and true/false tasks.
  - When the submit button is disabled.
  - The answer state as the class `AnswerSubmission.AnswerForm`: the
    checkbox toggle, the per-field maps and reset.
  - An open task is graded by a remote service. Its reply is an input.
- **Route access** (`middleware.dfy`). Which requests are redirected, given
  whether a user is signed in and the request path.
- **AI tutor chat** (`ai_chat.dfy`).
  - How a saved conversation seeds the chat, with ids and order.
  - Which messages are shown.
  - The effect that decides when to save, as the class `AiChat.ChatSaver`
    with its two references.
- **Small helpers**:
  - the sidebar's label shortening and fallbacks (`app_sidebar.dfy`);
  - the avatar initials (`user_nav.dfy`);
  - the question-type filter of the task picker (`problem_selector.dfy`),
    checked against the `task_type` enumeration (`task_types.dfy`).
  - The picker starts on "all" (`ProblemSelector.InitialQuestionType`).
- **JavaScript built-ins the components rely on**:
  - `every`, `some`, `find`, `filter`, `map` (`array_methods.dfy`);
  - `trim`, `toLowerCase`, `toUpperCase`, `startsWith` and decimal
    rendering (`text_ops.dfy`).

On a mouse move the pen (the start of the next path) moves to the midpoint
of the previous and the current mouse position, while the recorded
previous point becomes the raw mouse position (`setPrevPos(currentPos)`).
`WhiteboardCanvas.Smooth` therefore uses the raw point as the next control
point, and `WhiteboardCanvas.TangentContinuous` shows that this choice makes
the curve smooth where segments meet.

## Model

| member | source | states |
|---|---|---|
| WhiteboardHistory.Initial | components/whiteboard.tsx:385-391 | once the context exists, the history is the one blank snapshot with the cursor at 0 |
| WhiteboardHistory.Pushed | components/whiteboard.tsx:107-119 | a save keeps entries up to the cursor, drops the rest, appends the snapshot; the cursor moves one on and is the last index; on the empty history (no blank state captured) the snapshot becomes the only entry |
| WhiteboardHistory.PushedOnEmpty | components/whiteboard.tsx:107-119 | a save on a history that never got its blank state starts it at that snapshot |
| WhiteboardHistory.Undone | components/whiteboard.tsx:125-129 | undo leaves the list alone, moves the cursor back one when it is above 0, else changes nothing; keeps the cursor in bounds |
| WhiteboardHistory.Redone | components/whiteboard.tsx:142-146 | redo leaves the list alone, moves the cursor on one when it is below the last index, else changes nothing; keeps the cursor in bounds |
| WhiteboardHistory.UndoThenRedo | components/whiteboard.tsx:125-157 | redo after an undo that moved restores the history |
| WhiteboardHistory.RedoThenUndo | components/whiteboard.tsx:125-157 | undo after a redo that moved restores the history |
| WhiteboardHistory.PushedPrunesRedo | components/whiteboard.tsx:113-119 | after a save nothing can be redone, and one undo returns to the entry that was current before the save |
| WhiteboardHistory.UndoTimesIndex | components/whiteboard.tsx:125-129 | n undos move the cursor n back, stopping at 0, and never change the list |
| WhiteboardHistory.RedoTimesIndex | components/whiteboard.tsx:142-146 | n redos move the cursor n on, stopping at the last entry, and never change the list |
| WhiteboardHistory.UndoRedoTimes | components/whiteboard.tsx:125-157 | n undos that all move are reversed by n redos |
| WhiteboardHistory.Start | components/whiteboard.tsx:385-391 | a fresh session shows the blank snapshot and has a valid cursor |
| WhiteboardHistory.UndoSession | components/whiteboard.tsx:125-139 | undo on screen keeps the history valid |
| WhiteboardHistory.RedoSession | components/whiteboard.tsx:142-156 | redo on screen keeps the history valid |
| WhiteboardHistory.ActAsWritten | components/whiteboard.tsx:159-175 | an action saves the raster from before the action and keeps the history valid |
| WhiteboardHistory.RunAsWritten | components/whiteboard.tsx:159-228 | a sequence of such actions keeps the history valid |
| WhiteboardHistory.AsWrittenUndoSkipsAStroke | components/whiteboard.tsx:168-169 | with saves before each action, one undo after two strokes shows the blank canvas, not the first stroke; redo after a stroke and an undo shows the blank canvas |
| WhiteboardHistory.ActCorrected | components/whiteboard.tsx:107-119 | an action that saves the raster after it keeps the history valid |
| WhiteboardHistory.RunCorrected | components/whiteboard.tsx:107-119 | a sequence of such actions keeps the history valid |
| WhiteboardHistory.UndoSessionTimes | components/whiteboard.tsx:125-139 | repeated undo keeps the history valid |
| WhiteboardHistory.RedoSessionTimes | components/whiteboard.tsx:142-156 | repeated redo keeps the history valid |
| WhiteboardHistory.RunCorrectedState | components/whiteboard.tsx:107-119 | after actions saved when done, the history is the blank snapshot followed by each post-action raster, with the cursor on the last |
| WhiteboardHistory.UndoSessionTimesState | components/whiteboard.tsx:125-139 | repeated undo shows the snapshot under the moved cursor |
| WhiteboardHistory.RedoSessionTimesState | components/whiteboard.tsx:142-156 | repeated redo shows the snapshot under the moved cursor |
| WhiteboardHistory.CorrectedUndoRedo | components/whiteboard.tsx:125-157 | with saves after each action, k undos after n actions show the raster after action n-k (blank for k = n), and k redos bring back the final raster |
| WhiteboardCanvas.Midpoint | components/whiteboard.tsx:199-202 | the midpoint is equally far from both points in each coordinate |
| WhiteboardCanvas.MajorUpTo | components/whiteboard.tsx:335-340 | the k-th major position is 100·k |
| WhiteboardCanvas.MinorUpToMembers | components/whiteboard.tsx:353-361 | the minor positions below 20·k are exactly the multiples of 20 that are not multiples of 100 |
| WhiteboardCanvas.MinorUpToIncreasing | components/whiteboard.tsx:353-361 | minor positions are strictly increasing and below 20·k |
| WhiteboardCanvas.MajorLinesExact | components/whiteboard.tsx:335-347 | major lines lie exactly at the multiples of 100 from 0 up to and including the dimension, increasing |
| WhiteboardCanvas.MinorLinesExact | components/whiteboard.tsx:353-371 | minor lines lie exactly at the multiples of 20 up to the dimension that are not multiples of 100, increasing |
| WhiteboardCanvas.GridLinesPartition | components/whiteboard.tsx:328-371 | no position has both kinds of line, and together they cover every multiple of 20 up to the dimension |
| WhiteboardCanvas.VerticalLines | components/whiteboard.tsx:335-340 | four calls per line, all on the given layer, no image copies |
| WhiteboardCanvas.HorizontalLines | components/whiteboard.tsx:342-347 | four calls per line, all on the given layer, no image copies |
| WhiteboardCanvas.GridCalls | components/whiteboard.tsx:314-375 | a grid repaint touches only its own layer and copies no image |
| WhiteboardCanvas.VerticalLinesAt | components/whiteboard.tsx:335-361 | a vertical line starts at x exactly when x is among the positions |
| WhiteboardCanvas.HorizontalLinesAt | components/whiteboard.tsx:342-371 | a horizontal line starts at y exactly when y is among the positions |
| WhiteboardCanvas.StyleCalls | components/whiteboard.tsx:184-195 | `destination-out` is set exactly for the eraser, which uses twice the width; the pencil sets the colour and width; round caps come last |
| WhiteboardCanvas.SegmentCalls | components/whiteboard.tsx:196-208 | the calls of one smoothed move: a quadratic curve controlled by the previous raw point to the midpoint, a stroke, and a new path from the midpoint |
| WhiteboardCanvas.Smooth | components/whiteboard.tsx:197-209 | one quadratic segment per move |
| WhiteboardCanvas.SmoothAt | components/whiteboard.tsx:197-209 | segment i is controlled by raw point i and ends at the midpoint of raw points i and i+1; each segment starts where the previous ended |
| WhiteboardCanvas.TangentContinuous | components/whiteboard.tsx:197-209 | consecutive segments meet with the same direction |
| WhiteboardCanvas.StrokeCallsStep | components/whiteboard.tsx:176-209 | one more mouse move adds the style and one segment from the last raw point, which is exactly what `Draw` appends |
| WhiteboardCanvas.StyleHasNoCurves | components/whiteboard.tsx:183-194 | setting the style draws no curve |
| WhiteboardCanvas.SegmentCurve | components/whiteboard.tsx:196-208 | one move draws one curve, controlled by the previous raw point and ending at the midpoint |
| WhiteboardCanvas.CurvesAppend | components/whiteboard.tsx:196-208 | the curves of concatenated calls are the curves of each part, in order |
| WhiteboardCanvas.StrokeCurvesAt | components/whiteboard.tsx:176-209 | the i-th curve a stroke records is controlled by raw point i and ends at the midpoint of raw points i and i+1 |
| WhiteboardCanvas.StrokeCurvesSnoc | components/whiteboard.tsx:196-208 | one more move adds exactly one curve, controlled by the last raw point |
| WhiteboardCanvas.StrokeDrawsSmooth | components/whiteboard.tsx:163-209 | the curves a stroke records, move by move, are exactly the segments of `StrokeSegments` |
| Whiteboard.RestoreCalls | components/whiteboard.tsx:131-139 | a restore ends by putting the chosen snapshot on the drawing layer |
| Whiteboard.ResizeCopiesBack | components/whiteboard.tsx:51-82 | the drawing is copied aside only when the old canvas had positive width and height; it is drawn back whenever the scratch context exists, as the last call; the drawing layer is cleared |
| Whiteboard.ResizeCalls | components/whiteboard.tsx:51-82 | the calls of one resize: the copy aside (only with a scratch context and a positive old size), the new sizes, a cleared drawing layer, the grid, and the copy back (whenever there is a scratch context) |
| Whiteboard.DrawGrid | components/whiteboard.tsx:314-375 | the grid loops make exactly the calls of `GridCalls` |
| Whiteboard.MajorVerticalLoop | components/whiteboard.tsx:335-340 | the loop draws a vertical line at each major position |
| Whiteboard.MajorHorizontalLoop | components/whiteboard.tsx:342-347 | the loop draws a horizontal line at each major position |
| Whiteboard.MinorVerticalLoop | components/whiteboard.tsx:353-361 | the loop draws a vertical line at each minor position, skipping multiples of 100 |
| Whiteboard.MinorHorizontalLoop | components/whiteboard.tsx:363-371 | the loop draws a horizontal line at each minor position, skipping multiples of 100 |
| Whiteboard.MinorVerticalStep | components/whiteboard.tsx:353-361 | one pass of the minor vertical loop adds the line at 20·k exactly when 20·k is not a multiple of 100 |
| Whiteboard.MinorHorizontalStep | components/whiteboard.tsx:363-371 | one pass of the minor horizontal loop adds the line at 20·k exactly when 20·k is not a multiple of 100 |
| Whiteboard.Whiteboard.constructor | components/whiteboard.tsx:19-27 | no context, empty history with cursor -1, pencil, black, width 3, previous point (0,0), default canvas size 300×150 |
| Whiteboard.Whiteboard.Resize | components/whiteboard.tsx:51-82 | sets the new size and appends the resize calls; the history, cursor and drawing state are not in its frame |
| Whiteboard.Whiteboard.Mount | components/whiteboard.tsx:385-397 | after the first resize, when the unguarded blank capture succeeds the history is that snapshot at 0 and the grid is drawn; when it throws the history stays empty and no grid is drawn; tool, colour, width and previous point are unchanged |
| Whiteboard.Whiteboard.Activate | components/whiteboard.tsx:385-397 | the context becomes available; a successful capture becomes the whole history, at index 0, and the grid is drawn; a failed one leaves the history empty and draws nothing |
| Whiteboard.Whiteboard.SaveCanvasState | components/whiteboard.tsx:107-123 | the history becomes `Pushed` of the old one with the captured snapshot; unchanged without a context or when the capture throws |
| Whiteboard.Whiteboard.Undo | components/whiteboard.tsx:125-140 | the history becomes `Undone` of the old one; when the cursor moved, the snapshot under it is painted over a white background and grid |
| Whiteboard.Whiteboard.Redo | components/whiteboard.tsx:142-157 | the history becomes `Redone` of the old one; when the cursor moved, the snapshot under it is painted |
| Whiteboard.Whiteboard.StartDrawing | components/whiteboard.tsx:159-175 | saves the raster, starts a path at the point, records it as the previous point and sets `drawing` |
| Whiteboard.Whiteboard.Draw | components/whiteboard.tsx:177-210 | a no-op unless drawing; otherwise the tool style, a quadratic segment from the previous point to the midpoint, and a new path at the midpoint; the previous point becomes the raw point |
| Whiteboard.Whiteboard.StopDrawing | components/whiteboard.tsx:212-219 | closes the path, resets the composite mode, clears `drawing` |
| Whiteboard.Whiteboard.ClearCanvas | components/whiteboard.tsx:221-228 | saves the raster, then clears the drawing layer |
| Whiteboard.Whiteboard.HandleTouchStart | components/whiteboard.tsx:231-249 | as a mouse-down at the touch point |
| Whiteboard.Whiteboard.HandleTouchMove | components/whiteboard.tsx:251-275 | a no-op unless drawing; otherwise the tool style and a straight line to the point; the previous point is not updated |
| Whiteboard.Whiteboard.HandleTouchEnd | components/whiteboard.tsx:277-285 | as a mouse-up |
| Whiteboard.Whiteboard.SetTool | components/whiteboard.tsx:407-416 | the chosen tool is set |
| Whiteboard.Whiteboard.SetColour | components/whiteboard.tsx:431 | the chosen colour is set |
| Whiteboard.Whiteboard.SetLineWidth | components/whiteboard.tsx:440 | the slider's value, between 1 and 10, is set and the bounds invariant kept |
| AnswerSubmission.FillInCorrect | components/answer-submission.tsx:79-81 | correct iff options exist and every field has an entry equal to its expected text up to case; no options gives false, an empty list true |
| AnswerSubmission.SingleChoiceCorrect | components/answer-submission.tsx:86 | correct iff the first option carrying the selected value is marked correct; no such option gives false |
| AnswerSubmission.CorrectValues | components/answer-submission.tsx:91 | one entry per option marked correct, repeated values counted (`CorrectCount`); a value is listed iff some option carrying it is marked correct; none without options |
| AnswerSubmission.FilterCountsCorrect | components/answer-submission.tsx:91 | `filter(isCorrect)` keeps exactly as many options as are marked correct |
| AnswerSubmission.CorrectValuesAppend | components/answer-submission.tsx:91 | the correct values of two option lists in sequence are those of the first followed by those of the second, so the source order is kept |
| AnswerSubmission.CorrectValuesSingle | components/answer-submission.tsx:91 | one option contributes its value exactly when it is marked correct |
| AnswerSubmission.MultipleChoiceCorrect | components/answer-submission.tsx:91-94 | correct iff as many selections as correct options and every correct value selected |
| AnswerSubmission.RepeatedCorrectValueNeedsTwo | components/answer-submission.tsx:91-94 | two correct options with the same value make the single selection of that value wrong, since the lengths differ |
| AnswerSubmission.MultipleChoiceWithoutOptions | components/answer-submission.tsx:91-94 | without options there are no correct values, so a multiple-choice answer is correct exactly when nothing is selected |
| AnswerSubmission.MultipleChoiceCorrectIffSameSet | components/answer-submission.tsx:90-94 | without repeated values the test is exactly equality of the selected and correct sets |
| AnswerSubmission.TrueFalseCorrect | components/answer-submission.tsx:99 | correct iff options exist and every option's recorded verdict strictly equals its `isTrue` (absent equals only absent) |
| AnswerSubmission.TrueFalseUnansweredIsWrong | components/answer-submission.tsx:99 | an unanswered option that states `isTrue` makes the answer wrong |
| AnswerSubmission.Grade | components/answer-submission.tsx:49-104 | an unknown type gives no answer and incorrect; each known type hands over its own answer state; the verdict of fill-in, single choice, multiple choice and true/false is exactly that type's test (`FillInCorrect`, `SingleChoiceCorrect`, `MultipleChoiceCorrect`, `TrueFalseCorrect`); an open task is correct iff the service replied correct |
| AnswerSubmission.ErrorBodyGradesWrong | components/answer-submission.tsx:66-67 | an error body from the grading service grades the open task as wrong |
| AnswerSubmission.SubmitDisabled | components/answer-submission.tsx:148-163 | never for open; fill-in unless options exist and every field is non-empty; single choice iff nothing selected; multiple choice iff the selection is empty; true/false unless every option is answered; always for other types |
| AnswerSubmission.FillInCorrectEnablesSubmit | components/answer-submission.tsx:152-153 | a correct fill-in answer to non-empty expected texts can be submitted |
| AnswerSubmission.TrueFalseCorrectEnablesSubmit | components/answer-submission.tsx:158-159 | a correct true/false answer to options stating `isTrue` can be submitted |
| AnswerSubmission.Toggled | components/answer-submission.tsx:128-132 | a selected value is removed and the list shrinks; an unselected one is appended at the end; other values keep their membership |
| AnswerSubmission.ToggledNoDuplicates | components/answer-submission.tsx:128-132 | toggling never creates a repeated value |
| AnswerSubmission.ToggleTwiceRestores | components/answer-submission.tsx:128-132 | toggling an unselected value twice restores the list |
| AnswerSubmission.ToggleTwiceMovesLast | components/answer-submission.tsx:128-132 | toggling a selected value twice moves it to the end |
| AnswerSubmission.AnswerForm.constructor | components/answer-submission.tsx:31-39 | empty answers, not submitted, no verdict, points or reasoning, not loading |
| AnswerSubmission.AnswerForm.HandleMultipleChoiceChange | components/answer-submission.tsx:128-132 | the selection becomes `Toggled` of the old one and stays free of repeats |
| AnswerSubmission.AnswerForm.HandleFillInChange | components/answer-submission.tsx:134-139 | only the edited field's entry changes |
| AnswerSubmission.AnswerForm.HandleTrueFalseChange | components/answer-submission.tsx:141-146 | only the edited option's verdict changes |
| AnswerSubmission.AnswerForm.HandleSingleChoiceChange | components/answer-submission.tsx:194 | the selection becomes the chosen value |
| AnswerSubmission.AnswerForm.ResetAnswer | components/answer-submission.tsx:116-126 | all answers emptied; submitted, verdict, points, reasoning and loading cleared |
| AnswerSubmission.AnswerForm.HandleSubmit | components/answer-submission.tsx:41-114 | returns and records the grading of the current state; afterwards submitted and not loading; points and reasoning are replaced by those of an open task's reply body, and an error body clears both; when the request throws they are kept |
| Middleware.IsPublicPath | lib/middleware.ts:34-37 | public iff the path equals or starts with one of the five listed paths |
| Middleware.PublicIffRooted | lib/middleware.ts:34-37 | because `/` is listed, the public paths are exactly those beginning with a slash |
| Middleware.Decide | lib/middleware.ts:39-47 | home redirect iff signed in on a public path other than `/`; sign-in redirect iff signed out on a non-public path; else the session response |
| Middleware.SignedInSentHomeEverywhere | lib/middleware.ts:39-41 | a signed-in user is redirected home from every slash-rooted path but `/` |
| Middleware.SignedInTaskPageRedirected | lib/middleware.ts:39-41 | a signed-in user opening `/zadanie/1` is sent home |
| Middleware.LoginRedirectUnreachable | lib/middleware.ts:43-45 | no slash-rooted path sends a signed-out visitor to sign in |
| Middleware.SignedInHomePasses | lib/middleware.ts:39-47 | a signed-in user on `/` gets the session response |
| Middleware.RedirectSettles | lib/middleware.ts:39-45 | following a redirect does not redirect again |
| Middleware.IsAuthPath | lib/middleware.ts:34 | a sign-in page iff the path equals or starts with one of the four sign-in paths |
| Middleware.IsPublicPathIntended | lib/middleware.ts:34-37 | public iff `/` itself or a sign-in page, and never public when the written test says not public |
| Middleware.DecideIntended | lib/middleware.ts:39-47 | home redirect iff signed in on a sign-in page; sign-in redirect iff signed out off the public pages |
| Middleware.IntendedAccess | lib/middleware.ts:39-47 | signed-in users reach everything but the sign-in pages; signed-out visitors reach only `/` and the sign-in pages |
| Middleware.IntendedTaskPage | lib/middleware.ts:39-45 | with the intended test a signed-in user reaches `/zadanie/1` and a signed-out one is sent to sign in |
| Middleware.IntendedRedirectSettles | lib/middleware.ts:39-45 | with the intended test, following a redirect does not redirect again |
| AiChat.SavedId | components/ai-chat.tsx:42 | saved ids start `saved-` and never equal the system message's id |
| AiChat.SavedIdInjective | components/ai-chat.tsx:42 | distinct positions get distinct ids |
| AiChat.FromSaved | components/ai-chat.tsx:41-45 | one message per saved one, role and content copied |
| AiChat.InitialMessages | components/ai-chat.tsx:31-46 | the system message with id `1` first, then the saved messages; length 1 + the number saved |
| AiChat.InitialIdsDistinct | components/ai-chat.tsx:31-46 | the initial list repeats no id |
| AiChat.InitialSavedLength | components/ai-chat.tsx:55 | the initial list's length when a saved list exists (even empty), else 0 |
| AiChat.Displayed | components/ai-chat.tsx:110 | all messages but the first, in order |
| AiChat.DisplayedInitial | components/ai-chat.tsx:110 | right after loading exactly the saved messages are shown |
| AiChat.SavePayload | components/ai-chat.tsx:72-78 | every stored message is a non-system message of the chat, role and content copied, stamped with the save time; every non-system message is stored; nothing else |
| AiChat.SavePayloadAppend | components/ai-chat.tsx:72-78 | the payload of a concatenation is the concatenation of the payloads, so order is kept |
| AiChat.SavePayloadSingle | components/ai-chat.tsx:72-78 | a system message is dropped; any other becomes one stored message with its role, content and the save time |
| AiChat.PayloadOfInitial | components/ai-chat.tsx:72-78 | saving the freshly loaded chat stores the loaded conversation again, message for message |
| AiChat.InitialLoadNotSaved | components/ai-chat.tsx:55-68 | loading a saved conversation does not trigger a save |
| AiChat.ShouldSave | components/ai-chat.tsx:66-68 | a save is due when the status turns ready after streaming, or when it is ready with more messages than were last saved |
| AiChat.ChatSaver.constructor | components/ai-chat.tsx:53-55 | the references start at the current status and the initial saved length |
| AiChat.ChatSaver.Effect | components/ai-chat.tsx:58-90 | with no task status or at most one message nothing changes, not even the remembered status; otherwise it saves exactly when ready after streaming or with new messages, then records the message count, and always remembers the status |
| AppSidebar.Prefix | components/app-sidebar.tsx:69 | `substring(0, n)` is a prefix of length n when n is in range |
| AppSidebar.TruncateText | components/app-sidebar.tsx:67-70 | empty iff the text is blank; the trimmed text when the untrimmed length is within the limit; otherwise exactly the first `limit` characters of the trimmed text followed by `...`; at most limit + 3 long |
| AppSidebar.PaddedTextGainsEllipsis | components/app-sidebar.tsx:69 | padded short text gains `...` although nothing is cut |
| AppSidebar.TruncateTextIntended | components/app-sidebar.tsx:67-70 | measuring the trimmed text, `...` appears exactly when characters are dropped |
| AppSidebar.OrElse | components/app-sidebar.tsx:148 | an absent or empty value falls back |
| AppSidebar.HistoryLabel | components/app-sidebar.tsx:147-149 | a sheet with a non-empty name is labelled with the truncated name, otherwise `Arkusz`; a task with non-empty content with the truncated content, otherwise `Zadanie`; at most 23 characters |
| AppSidebar.BlankNameGivesEmptyLabel | components/app-sidebar.tsx:147-149 | a name of spaces only gives an empty label |
| UserNav.UserName | components/user-nav.tsx:69 | the full name if non-empty, else the email if non-empty, else empty |
| UserNav.Split | components/user-nav.tsx:72 | one more piece than spaces, and no piece holds a space |
| UserNav.JoinSplit | components/user-nav.tsx:72 | joining the pieces with spaces gives the text back |
| UserNav.Heads | components/user-nav.tsx:73-74 | at most one character per piece |
| UserNav.HeadsAreWordStarts | components/user-nav.tsx:71-74 | the first characters of the pieces are exactly the characters that start a word |
| UserNav.Initials | components/user-nav.tsx:71-75 | the upper-cased word starts, at most one more than the number of spaces |
| UserNav.SpacesHaveNoWordStarts | components/user-nav.tsx:73-74 | spaces alone start no word |
| UserNav.BlankNameHasNoInitials | components/user-nav.tsx:71-75 | a name of spaces only has no initials |
| UserNav.ExtraSpacesIgnored | components/user-nav.tsx:72-74 | a leading space does not change the initials |
| ProblemSelector.TaskFilter | components/problem-selector.tsx:26-31 | no filter iff "all"; "open" lists exactly the written-answer types, "closed" exactly the others |
| ProblemSelector.TaskFilterNames | components/problem-selector.tsx:29-31 | the filters carry the schema's names `open`, `fill_in` and `single_choice`, `multiple_choice`, `true_false` |
| ProblemSelector.FiltersPartitionTaskTypes | components/problem-selector.tsx:26-31 | the two filters are disjoint and together as long as the enumeration |
| TaskTypes.Parse | database.types.ts:329-334 | a recognised string is the name of the type it gives |
| TaskTypes.ParseName | database.types.ts:329-334 | every type's name is read back as that type |
| TaskTypes.AllTaskTypesComplete | database.types.ts:329-334 | the enumeration lists every type exactly once |
| ArrayMethods.EveryIff | components/answer-submission.tsx:80 | `every` holds iff every element satisfies the predicate (vacuously on empty) |
| ArrayMethods.AnyIff | lib/middleware.ts:35-37 | `some` holds iff some element satisfies the predicate |
| ArrayMethods.FindFirst | components/answer-submission.tsx:86 | `find` gives nothing iff no element matches, else the element at the first matching index |
| ArrayMethods.Filter | components/answer-submission.tsx:91 | `filter` never lengthens |
| ArrayMethods.Map | components/answer-submission.tsx:91 | `map` keeps the length |
| ArrayMethods.MapMembers | components/answer-submission.tsx:91 | the mapped array holds exactly the images |
| ArrayMethods.FilterMembers | components/answer-submission.tsx:130 | an element is kept iff it occurs and satisfies the predicate |
| ArrayMethods.FilterNoDuplicates | components/answer-submission.tsx:130 | filtering keeps a repeat-free array repeat-free |
| ArrayMethods.FilterKeepsAll | components/ai-chat.tsx:73 | filtering an array whose elements all pass changes nothing |
| ArrayMethods.FilterAppend | components/answer-submission.tsx:130 | filtering distributes over concatenation |
| ArrayMethods.DistinctCardinality | components/answer-submission.tsx:93 | a repeat-free array has as many distinct elements as entries |
| TextOps.TrimStart | components/app-sidebar.tsx:69 | drops exactly a leading run of white space |
| TextOps.TrimEnd | components/app-sidebar.tsx:69 | drops exactly a trailing run of white space |
| TextOps.Trim | components/app-sidebar.tsx:68-69 | the slice between the leading and trailing white-space runs, with non-white ends |
| TextOps.TrimStartEmptyIffWhitespace | components/app-sidebar.tsx:68 | trimming the start empties the text iff it is all white space |
| TextOps.TrimEmptyIffWhitespace | components/app-sidebar.tsx:68 | `!text.trim()` holds iff the text is all white space |
| TextOps.TrimIdempotent | components/app-sidebar.tsx:69 | trimming twice is trimming once |
| TextOps.TrimStartAt | components/app-sidebar.tsx:69 | the start trim stops at the first non-white character |
| TextOps.TrimEndAt | components/app-sidebar.tsx:69 | the end trim stops after the last non-white character |
| TextOps.IsWhitespace | components/app-sidebar.tsx:68-69 | the characters `trim` strips: the white-space and line-terminator code points of ECMAScript |
| TextOps.StartsWith | lib/middleware.ts:36 | `startsWith`: the text begins with the given prefix |
| TextOps.Lower | components/answer-submission.tsx:80 | same length, each character lower-cased |
| TextOps.Upper | components/user-nav.tsx:75 | same length, each character upper-cased |
| TextOps.Decimal | components/ai-chat.tsx:42 | a non-empty string of decimal digits |
| TextOps.ParseDecimalRoundTrip | components/ai-chat.tsx:42 | reading the digits back gives the number |
| TextOps.DecimalInjective | components/ai-chat.tsx:42 | distinct numbers render differently |

## Left out

- Pixels: `getImageData`, `putImageData`, `drawImage`, compositing, curve rendering and line caps are canvas built-ins. Snapshots are opaque values supplied by the caller, and canvas calls are recorded in a trace.
- PNG export (components/whiteboard.tsx:288-311) and its `window.exportWhiteboardCanvas` hook (378-383): pixel encoding in the browser.
- The `ResizeObserver` and window resize listener (components/whiteboard.tsx:88-103) only decide when `Resize` runs. The container's measured size is a parameter.
- Mouse coordinates (`clientX - rect.left`) are inputs. Coordinates are exact reals, not floating point.
- The `canvasRef.current` checks: once mounted the refs are attached, so the model guards on `hasContext` alone.
- React batching and re-render timing: each handler is one atomic step over its closure state.
  - `Whiteboard.Whiteboard.SaveCanvasState` applies the slice and the append in order, as the queued updaters do.
- The open-task grading request (components/answer-submission.tsx:50-75) is an input to `HandleSubmit`: the body the service replied with, whatever its status (an `{error}` body is `AnswerSubmission.ErrorBody`, which clears points and reasoning), or nothing when the request or JSON parsing threw.
- AnswerSubmission.AnswerForm.HandleSubmit: the `undefined` verdict that an error body (`ErrorBody`) records is modelled as `false`, and the `undefined` points and reasoning as absent; the two differ only in the result modal, which is not part of this model.
  - The image capture and `console` logging are left out.
- AnswerSubmission.TaskOption: options whose `correctAnswer` is missing, where `toLowerCase` throws, are not modelled. Option fields are typed.
- AnswerSubmission.AnswerForm.HandleSubmit: only the state after grading is modelled. The transient `isLoading = true` during the request is not.
- Rendering of the inputs (`renderAnswerInput`) and the result modal: presentation.
- The `saveAiMessages` query (components/ai-chat.tsx:81) is recorded as a `SaveCall`. Its failure is logged by the code and has no effect, so it is not modelled.
- The chat engine (streaming replies, message ids of new messages) is not modelled. The message list and status are inputs of each effect run.
  - The system prompt's text is a parameter.
  - Save timestamps (`new Date()`) are a parameter.
- AiChat.SavePayload: stamps every stored message with one time, whereas the source reads the clock once per message, so its times may differ by milliseconds.
- The session lookup and cookie copying (lib/middleware.ts:9-32) are not modelled. The user's presence is an input.
- The `matcher` pattern in middleware.ts is defined by the framework, which is not part of this model.
- Case mapping covers ASCII and the Polish letters only. Other Unicode case mappings, and `split` on UTF-16 code units, are not modelled; text is a sequence of characters.
- Fetching the sidebar's history items and the user record: database calls.
- `lastSavedLengthRef`'s task-status persistence, the `taskStatusId` prop of the whiteboard and the database wrappers (lib/db): thin calls to a service that is not part of this model.

## Findings

| source | as written | input that shows it | evidently intended | confidence | as-written member | corrected member |
|---|---|---|---|---|---|---|
| lib/middleware.ts:34-37 | `/` is in the public list and matched as a prefix, so every path is public | a signed-in user requesting `/zadanie/1` is redirected to `/` | `/` is public by itself only; the sign-in pages by equality or prefix | high, not executed | Middleware.SignedInTaskPageRedirected | Middleware.DecideIntended |
| components/whiteboard.tsx:168-169 | the raster is saved before each action, on top of the initial blank snapshot, and never after | two strokes, then undo: the blank canvas is shown instead of the first stroke; one stroke, undo, redo: the stroke does not come back | each undo removes one action and redo restores it (save after each action) | medium, not executed | WhiteboardHistory.AsWrittenUndoSkipsAStroke | WhiteboardHistory.CorrectedUndoRedo |
| components/app-sidebar.tsx:69 | the length test uses the untrimmed text | `truncateText("  ab  ", 5)` gives `ab...` although nothing is cut | compare the trimmed length, so `...` marks dropped characters | medium, not executed | AppSidebar.PaddedTextGainsEllipsis | AppSidebar.TruncateTextIntended |

The component classes and functions follow the code as written:
`Whiteboard.Whiteboard`, `Middleware.Decide` and `AppSidebar.HistoryLabel`.
The corrected members state the intended behaviour beside them.
