# Virtual Try-On wizard and image uploader, modelled in Dafny

The application is a four-step browser wizard. The user uploads a product photo, then a photo of a model. Both go to a remote image-generation service, and the composited result is shown. This project models the two parts of it that have precise behaviour:

- **The wizard** (`App.tsx`), in `app.dfy`. It has five state cells: `step`, `productImage`, `modelImage`, `generatedImage` and `error`. Its event handlers overwrite them: product upload, model upload, Next, Back, Generate and Start Over.
  - Class `App.Wizard` holds the five cells as fields. It has one method per handler. Each method states the new value of every field, and proves that the object's snapshot moves by the pure transition function `App.Apply`.
  - `Apply` is the same handler logic, written on `Snapshot` values.
  - `Offered` says which events can happen in each state. A button click needs its button to be rendered and enabled. A completed file read can arrive in any step.
  - Next, Back and `StartGenerate` take their button's gate as `requires`. `FinishGenerate` requires the GENERATING step, because the one call in flight settles only while generating. The upload handlers and `HandleReset` have no `requires`, because their code works in every state.
  - On top of these, the model proves the reachable-state invariant for every sequence of events that can happen.
  - Generate has two halves. `StartGenerate` runs up to the remote call and returns the call it makes. `FinishGenerate` receives the call's `Outcome`, either `Success(payload)` or `Failure(message)`.
- **The upload slot's file handler** (`components/ImageUploader.tsx`), in `image_uploader.dfy`. It takes the data URL produced by reading a file and builds an `ImageState`:
  - `String.prototype.split` on `,` is `Split`. Its inverse is `Join`.
  - The regular expression `/:(.*?);/`, with JavaScript's leftmost-match and lazy-group semantics, is `LazyGroupEnd`, `LeftmostMatch` and `CapturedMimeType`. In it, `.` does not match a line terminator.
  - The `|| 'application/octet-stream'` fallback is `MimeTypeOf`.
  - The whole computation is `ParseDataUrl`.
  - The handler itself is `HandleFileChange`. It returns the list of values it hands to the `onImageUpload` callback.
- **The value types** (`types.ts`), in `types.dfy`: `AppStep` and `ImageState`.

Behaviour of the code worth noting:
- Back keeps any error message. So after a failure followed by Back, an error is present on the product step.
- Reset is a handler with no guard. Only the UI restricts it to the result step.
- There is no guard against stale responses; the model has none either.
- `ImageState.base64` is declared a string. The code fills it with `parts[1]`, which is `undefined` when the data URL has no comma. The model types the field `Option<string>`.

## Model

| member | source | states |
|---|---|---|
| ImageUploader.FirstIndex | components/ImageUploader.tsx:23 | the index found holds the separator and no earlier index does |
| ImageUploader.Split | components/ImageUploader.tsx:23 | `split(',')` yields at least one part; no part contains the separator; joining the parts with it gives back the input |
| ImageUploader.SplitJoin | components/ImageUploader.tsx:23 | splitting undoes joining: for a nonempty list of separator-free parts, Split(Join(parts)) == parts |
| ImageUploader.LazyGroupEnd | components/ImageUploader.tsx:24 | the lazy group `(.*?)` ends at the first `;` reached without crossing a line terminator; it has no end when every `;` is preceded by a line terminator |
| ImageUploader.LeftmostMatch | components/ImageUploader.tsx:24 | `match` finds the leftmost position where `:(.*?);` matches, and none when no position does |
| ImageUploader.CapturedMimeType | components/ImageUploader.tsx:24 | `match(/:(.*?);/)?.[1]` has a capture exactly when the pattern matches at some position; the capture holds neither `;` nor a line terminator |
| ImageUploader.MimeTypeOf | components/ImageUploader.tsx:24 | the MIME type is the captured text when that text is nonempty, `application/octet-stream` otherwise; it is never empty |
| ImageUploader.LazyGroupEndsAt | components/ImageUploader.tsx:24 | the group ends exactly at the first `;` when `.` matches everything before it |
| ImageUploader.NoCaptureWithoutColon | components/ImageUploader.tsx:24 | with no `:` there is no capture, and the MIME type falls back to the default |
| ImageUploader.CaptureAt | components/ImageUploader.tsx:23-24 | the capture is the text between the first `:` and the first `;` after it, when no line terminator lies between them |
| ImageUploader.NoCaptureAfter | components/ImageUploader.tsx:24 | with no `;` after the first `:` there is no capture, and the MIME type falls back to the default |
| ImageUploader.LineTerminatorDefeatsCapture | components/ImageUploader.tsx:24 | a line terminator between the only `:` and the next `;` defeats the pattern, so the MIME type falls back |
| ImageUploader.ParseDataUrl | components/ImageUploader.tsx:22-31 | `previewUrl` is the input data URL, unmodified; `mimeType` is never empty |
| ImageUploader.FieldsOfDataUrl | components/ImageUploader.tsx:22-31 | the MIME type is read from the text before the first comma; `base64` is the text between the first and the second comma (to the end if there is no second comma), and absent when there is no comma |
| ImageUploader.DataUrlRoundTrip | components/ImageUploader.tsx:22-31 | parsing `"data:" + m + ";base64," + p` gives `mimeType == m`, `base64 == p` and the whole string as `previewUrl`, for a nonempty `m` free of `;`, `,` and line terminators and a `p` free of `,` |
| ImageUploader.HandleFileChange | components/ImageUploader.tsx:17-35 | with no file selected the callback is not invoked; otherwise it is invoked exactly once, with the image parsed from the single data URL read |
| App.FailureMessage | App.tsx:36 | the message shown after a failure is the failure's message when that is nonempty, "An unknown error occurred." otherwise; it is never empty |
| App.RemoteRequest | App.tsx:25-32 | the remote call is made exactly when both images are present, and it is passed (model image, product image) in that order |
| App.Apply | App.tsx:16-47 | each cell has its own writers: only a product upload or a reset changes the product image; only a model upload or a reset changes the model image; only a successful generation or a reset changes the generated image; only Generate, a failed generation or a reset changes the error; an upload never changes the step; a reset yields exactly the initial state |
| App.Offered | App.tsx:66-141 | apart from uploads from late file reads, nothing but the remote call settling can happen while generating, and nothing but Start Over on the result step; Generate can be clicked only on the model step with a model image; the remote call settles only while generating |
| App.GenerateWithImageMissing | App.tsx:25-28 | Generate with either image missing makes no call and sets the error to exactly "Both product and model images are required."; the step, both images and the generated image stay as they were |
| App.StepKeepsInvariant | App.tsx:16-47 | every event that can happen preserves the reachable-state invariant |
| App.TraceKeepsInvariant | App.tsx:16-47 | every sequence of events that can happen preserves the invariant |
| App.ReachableStatesSatisfyInvariant | App.tsx:10-47 | every state reachable from the initial state, late uploads included, has these properties: a product image when past the product step; a model image while generating or showing the result; a generated image exactly on the result step; no error while generating or showing the result |
| App.GenerateCheckNeverFires | App.tsx:25-30 | on a state satisfying the invariant, whenever Generate is enabled both images are present, so generation starts |
| App.FailureAllowsRetry | App.tsx:35-38 | after a failure the wizard is back on the model step with the images of the state the call settled in and no generated image, so Generate is enabled again and makes the request Generate would make in that state; that is the failed request unless an upload landed while generating |
| App.RetryRepeatsFailedRequest | App.tsx:24-38 | when no upload lands between clicking Generate and the failure, the call was made, and clicking Generate again is enabled and makes exactly the request that failed |
| App.Wizard.constructor | App.tsx:10-14 | the initial state is the product step with no images, no generated image and no error |
| App.Wizard.HandleProductUpload | App.tsx:16-18 | the product image is replaced wholesale; the step, model image, generated image and error are unchanged |
| App.Wizard.HandleModelUpload | App.tsx:20-22 | the model image is replaced wholesale; everything else is unchanged |
| App.Wizard.Next | App.tsx:66-73 | offered only on the product step once a product image is present; moves to the model step and changes nothing else |
| App.Wizard.Back | App.tsx:97-102 | moves from the model step to the product step, keeping the images and any error |
| App.Wizard.StartGenerate | App.tsx:24-32 | from a state satisfying the invariant the call is always made; with an image missing: the error becomes exactly "Both product and model images are required.", no call is made, and nothing else changes; otherwise: the error is cleared, the step becomes GENERATING, and the call receives (model image, product image) |
| App.Wizard.FinishGenerate | App.tsx:32-38 | on success: the returned payload is stored exactly and the step becomes RESULT; on failure: the error is set from the message, the step returns to MODEL_UPLOAD, and the images and generated image are untouched |
| App.Wizard.HandleReset | App.tsx:41-47 | from any state: every cell takes its initial value |
| App.Wizard.SelectProductFile | App.tsx:58-65 | selecting no file changes nothing; selecting a file stores the image parsed from its data URL as the product image |
| App.Wizard.SelectModelFile | App.tsx:86-93 | selecting no file changes nothing; selecting a file stores the image parsed from its data URL as the model image |

## Left out

- Rendering (JSX, styling, icons) and `components/Spinner.tsx`: presentation only. From the render code, only the conditions under which controls appear are kept, as `Offered` and as method preconditions.
- `FileReader.readAsDataURL` and the base64 encoding of the file's bytes: browser I/O. The data URL it produces is an input. The model does not prove that the payload decodes to the file's bytes, nor that the MIME type matches the file's declared type.
- A failed file read: `onloadend` (components/ImageUploader.tsx:21) also fires then. `reader.result` is `null`, so `dataUrl.split(',')` (line 23) throws a TypeError before `onImageUpload` (line 27) is reached, and the wizard's state does not change. The model has no such event.
- The file picker's `accept` filter, and the `data:image/png;base64,` prefix used to display the result: browser and display concerns.
- `generateTryOnImage` (`services/geminiService`) is not part of this model. It is a network call to an external generative API, so it is modelled only through the request passed to it and an arbitrary `Outcome`.
- Asynchrony, React state batching and closure capture. Each handler is one atomic transition, and Generate is split in two around the remote call.
  - A file read that completes after the user has moved on reports in another step. So `Offered` allows both uploads in every step, and the upload methods have no precondition. Each upload preserves the invariant in every step.
- A rejection value that is `null` or `undefined` would make `err.message` throw inside the `catch`. Then neither `setError` nor `setStep` runs, and the wizard stays on GENERATING with no control offered. `Outcome` cannot reach that dead state. A truthy non-string `message` would be stored in the error cell as it is. Failure messages are modelled as an optional string.
- App.Wizard.StartGenerate: requires a model image, because the Generate button is disabled without one. The handler's check for a missing model image is therefore stated by `App.GenerateWithImageMissing`, not on this method.
