# ArquitectoBot core in Dafny

ArquitectoBot is a Streamlit page. It takes an architectural plan and turns what it finds into a Python script for Dynamo. This project models the sequential logic of `app.py`:

- **`procesar_plano`, the contour filter.** Contours of area over 100 become points at the centre of their bounding box, each labelled `Elemento de {w}x{h}px`.
- **`procesar_plano`, the text reader.** Every non-blank OCR line that holds `(x, y)` between its first `(` and its first `)` becomes a point described by the whole line.
- **`generar_codigo_dynamo`.** It writes a fixed preamble, one `Point.ByCoordinates(x, y, 0),  # descripcion` line per point, and a fixed epilogue that ends in `OUT = puntos`.
- **The chat session.** An append-only message log answers every prompt with one of two fixed replies, picked only by whether a plan is uploaded. After an analysis that found points, it adds a summary.

Modules:

- `Wrappers` has `Option`.
- `Text` has the Python string operations the code relies on:
  - `split` on one character;
  - `strip` truthiness;
  - `index`, giving the first occurrence;
  - clamped slicing;
  - `int` to decimal text.
- `Filtering` has the "keep and transform in order" pattern shared by the two loops and the list comprehension.
- `Plan` covers `procesar_plano`.
- `Dynamo` covers `generar_codigo_dynamo`.
- `Chat` covers the message log, as a class `ChatSession` with a `messages` field.
- `App` covers one run of the page: the analysis button, then the chat box.

Where a loop updates state, the loop is a method: the `resultados.append` loops, the `codigo +=` loop and the `messages.append` calls. That method is proved equal to a pure function, and the function's properties are proved as lemmas.

Library calls become parameters:

- OpenCV's contours become a sequence of `Contour(area, x, y, w, h)` records.
- Tesseract's output becomes the input string `texto`.
- Python's `float()` becomes a partial function `parse: string -> Option<real>`.
- The rendering of a float inside an f-string becomes `fmt: real -> string`.

## Model

| member | source | states |
|---|---|---|
| Text.Strip | app.py:59 | the stripped line is empty exactly when every character is whitespace; otherwise it starts and ends with a non-whitespace character |
| Text.StripSlice | app.py:59 | the stripped text is the slice of the line between a whitespace prefix and a whitespace suffix; with `Strip`'s non-whitespace ends this fixes it |
| Text.Find | app.py:65 | `str.index`: no result exactly when the character is absent; otherwise the position holds it and no earlier position does |
| Text.Slice | app.py:65 | Python's clamped slice: the ordinary subsequence when the bounds are in order, empty when the end does not exceed the start |
| Text.Split | app.py:59 | `str.split` on one character: at least one piece, no piece holds the separator, and joining the pieces with it gives back the text |
| Text.SplitUnique | app.py:66 | any separator-free list of pieces whose join is the text is exactly its split, so the three facts above determine `split` |
| Text.NatToString | app.py:54 | decimal rendering of an integer: only digits, no leading zero, and its decimal value is the number |
| Filtering.FilterMapOrigins | app.py:44-74 | every kept output comes from an input, in increasing input order; an input is kept exactly when the step accepts it; each output is that input's image |
| Plan.LabelRoundTrip | app.py:54 | the width and height can be read back out of `Elemento de {w}x{h}px` |
| Plan.ElementLabelInjective | app.py:54 | two boxes share a label only when they have the same width and height |
| Plan.ElementLabel | app.py:54 | no contract; `LabelRoundTrip` and `ElementLabelInjective` state its meaning |
| Plan.ContourPoint | app.py:45-55 | no contract; `ElementPointsSpec` states what it yields |
| Plan.ElementPoints | app.py:44-55 | no contract; `ElementPointsSpec` states its meaning, `DetectElements` is the loop proved equal to it |
| Plan.ElementPointsSpec | app.py:44-55 | a contour gives a point exactly when its area is over 100; the point is the box centre `(x + w/2, y + h/2)`, of kind element, labelled by the box size; points keep contour order |
| Plan.KeepNonBlankSpec | app.py:59 | a line is kept exactly when it holds a non-whitespace character |
| Plan.KeepNonBlank | app.py:59 | no contract; `KeepNonBlankSpec` states its meaning |
| Plan.NonBlankLines | app.py:59 | no contract; `NonBlankLinesSpec` states its meaning |
| Plan.NonBlankLinesSpec | app.py:59 | the lines examined are exactly the pieces of `texto.split('\n')` that hold a non-whitespace character, in their original order |
| Plan.CoordinatePoint | app.py:64-74 | a point read from a line is of kind text coordinate, and its description is the whole line |
| Plan.LinePoint | app.py:63-74 | the same for the whole per-line step, including the `(`/`)` presence test |
| Plan.LinePointYields | app.py:63-72 | if the first `(` comes before the first `)`, and the text between them is two parsable numbers around the only comma, the line yields exactly the point of those numbers, described by the line |
| Plan.LinePointWitness | app.py:63-74 | conversely, a line that yields a point has such a first `(`, first `)` and two numbers, and the point is made from them |
| Plan.EmptyCoordinatesDropped | app.py:65-74 | a first `)` at or before the position just after the first `(` gives an empty slice, and the line is dropped without error |
| Plan.TextPointsSpec | app.py:62-74 | a non-blank line gives a point exactly when the per-line step accepts it, whatever the other lines are; the points keep line order |
| Plan.TextPoints | app.py:62-74 | no contract; `TextPointsSpec`, `LinePointYields` and `LinePointWitness` state its meaning, `AppendTextPoints` is the loop proved equal to it |
| Plan.ElementsBeforeText | app.py:33-74 | in `resultados` every contour point precedes every text point |
| Plan.DescriptionsAreSingleLines | app.py:50-72 | no description in `resultados` holds a line break |
| Plan.OneLineText | app.py:59-74 | a text that is one non-blank line yields at most the point of that line |
| Plan.PuntoExample | app.py:62-72 | the line `Punto (12.5, 7)` yields the single point (12.5, 7) described by the line |
| Plan.NoCoordinatesExample | app.py:63 | a line without parentheses yields nothing |
| Plan.DetectElements | app.py:44-55 | the contour loop appends exactly the contour points, in order |
| Plan.AppendTextPoints | app.py:59-74 | the text loop appends exactly the text points after what is already in `resultados` |
| Plan.ProcessPlan | app.py:33-77 | `procesar_plano` returns the contour points followed by the text points |
| Dynamo.PointTextsSpec | app.py:89-90 | the k-th point statement is the statement of the k-th point |
| Dynamo.PointText | app.py:90 | no contract; `PointTextSingle` and `ScriptLines` state its place in the script |
| Dynamo.PointTexts | app.py:89-90 | one statement per point; `PointTextsSpec` states each in position |
| Dynamo.Script | app.py:80-97 | no contract; `ScriptLines`, `EmptyScript` and `PlanScriptLines` state its line structure |
| Dynamo.AppendPointStatements | app.py:89-90 | the loop appends each point's statement and a line break, in order, to the code so far |
| Dynamo.GenerateScript | app.py:80-97 | the returned code is the preamble, the terminated point statements and the epilogue |
| Dynamo.PreambleLinesSingle | app.py:81-87 | no line of the fixed preamble holds a line break |
| Dynamo.EpilogueLinesSingle | app.py:92-96 | no line of the fixed epilogue holds a line break |
| Dynamo.PointTextSingle | app.py:90 | a point statement is one line when its rendered numbers and its description are |
| Dynamo.PointTextsSingle | app.py:89-90 | every point statement is one line under the same conditions |
| Dynamo.ScriptLines | app.py:80-97 | read line by line, the script is the seven preamble lines, one statement per point in input order, the four epilogue lines ending in `OUT = puntos`, and the empty piece after the final line break |
| Dynamo.EmptyScript | app.py:80-97 | with no points the preamble is directly followed by the epilogue, line for line |
| Dynamo.PlanScriptLines | app.py:33-97 | for any analysed plan, the script has exactly one statement line per point of `resultados`, in order |
| Chat.ReplyReveals | app.py:150-152 | the reply is one of the two fixed texts, and it differs exactly when the upload state differs |
| Chat.Reply | app.py:150-152 | no contract; `ReplyReveals`, `ChatAppends`, `RerunWithoutUpload` and `RerunOrder` state its meaning |
| Chat.SummaryReveals | app.py:127-130 | two analysis summaries are equal exactly when their point counts are |
| Chat.AnalysisSummary | app.py:129 | no contract; `SummaryReveals` states that it names the count |
| Chat.ChatAppends | app.py:143-155 | a non-empty prompt adds exactly two messages at the end of the log: the user's prompt, then an assistant reply that is the same whatever the prompt |
| Chat.AfterChat | app.py:143-155 | no contract; `ChatAppends` and `StepPreserves` state its meaning, `ChatSession.Submit` is the method proved equal to it |
| Chat.AfterAnalysis | app.py:127-130 | no contract; `StepPreserves` and `RerunOrder` state its meaning, `ChatSession.RecordAnalysis` is the method proved equal to it |
| Chat.Step | app.py:127-155 | no contract; `StepGrows` and `StepPreserves` state its meaning |
| Chat.Replay | app.py:15-155 | no contract; `ReplayWellFormed` and `ReplayGrows` state its meaning |
| Chat.StepGrows | app.py:127-155 | no event removes or alters a message already logged |
| Chat.StepPreserves | app.py:127-155 | every event keeps the log well formed: each user message is a non-empty prompt followed at once by a fixed reply, and each assistant message is a fixed reply or a summary of a non-zero count |
| Chat.ReplayWellFormed | app.py:15-155 | every log reachable from the empty log of a new session is well formed |
| Chat.ReplayGrows | app.py:15-155 | the log after some of the events is a prefix of the log after all of them |
| Chat.ChatSession.constructor | app.py:15-16 | a new session starts with an empty, well-formed log |
| Chat.ChatSession.Submit | app.py:143-155 | a submission updates the log as the pure step for a prompt does, and keeps it well formed |
| Chat.ChatSession.RecordAnalysis | app.py:127-130 | the summary naming the point count is appended, and the log stays well formed |
| App.RerunOrder | app.py:109-155 | in a run that analyses a plan with points and answers a prompt, the summary comes first, then the prompt, then the uploaded-plan reply |
| App.PlanPoints | app.py:33-77 | no contract; `ElementsBeforeText` and `PlanScriptLines` state its meaning, `ProcessPlan` is the method proved equal to it |
| App.RerunLog | app.py:101-155 | no contract; `RerunOrder`, `RerunWithoutUpload` and `RerunPreserves` state its meaning, `Rerun` is the method proved equal to it |
| App.RerunWithoutUpload | app.py:101-155 | without an upload nothing is analysed, and a prompt gets the reply asking for a plan |
| App.RerunPreserves | app.py:101-155 | one run of the page keeps the log well formed and only extends it |
| App.Analyze | app.py:109-140 | the button returns a script exactly when the plan has points, and the script is the plan's; the summary is logged in exactly that case |
| App.Rerun | app.py:101-155 | one run of the page: the analysis when clicked on an uploaded plan, then the chat box, with the log as `RerunLog` describes |

## Left out

- Streamlit rendering is not modelled: page setup, `st.image`, `st.dataframe`, `st.code`, spinners, success and warning banners, and the download button. Only the script is kept.
- App.Rerun and App.Analyze describe only runs in which the library calls return. In the source, an exception inside `procesar_plano` ends the page run: for example, `Image.open` on an accepted PDF upload, or `cvtColor`. Such a run logs no summary, skips `os.unlink` and never reaches the chat box (app.py:143-155).
- Image decoding and the incomplete PDF path (app.py:26-31) are not modelled, because they are foreign library calls. `images` always holds one image, so the model analyses one `Upload`.
- The OpenCV pipeline is not modelled: `cvtColor`, `threshold`, `findContours`, `contourArea` and `boundingRect` (app.py:37-47). Its result is the input sequence of `Contour` records.
- Tesseract (app.py:58) is not modelled. Its output is the input `texto`.
- The temporary file and its removal (app.py:26-28, 76) are filesystem I/O and are not modelled.
- Python's `float()` grammar is abstract (`parse`), so the model does not know which strings parse.
- The float formatting of the f-string is abstract (`fmt`). `PlanScriptLines` assumes only that `fmt` writes no line break. `ScriptLines`, for arbitrary points, also needs one-line descriptions, and `DescriptionsAreSingleLines` proves those for every analysed plan.
- Coordinates are exact reals, so floating-point rounding of `x + w/2` is not modelled.
- The triple-quoted template literals are given as their lines, ended by line breaks. This is the same text, written so that the line-by-line proofs stay cheap.
- The two loops of `procesar_plano` are two methods, `DetectElements` and `AppendTextPoints`, with `ProcessPlan` calling them in turn. The loop of `generar_codigo_dynamo` is the method `AppendPointStatements`.
- Message roles are a two-valued datatype rather than dictionaries with string keys.
- `st.chat_input` returning nothing and returning an empty string are both an empty `prompt`, which leaves the log unchanged.
- Chat.ChatSession.RecordAnalysis: requires a non-zero count, because its one caller appends only inside `if puntos:`.
- Plan.CoordinatePoint: its own contract states only the kind and the description. The coordinates are stated by `LinePointYields` and `LinePointWitness`.
