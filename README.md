# Client feedback portal backend: a verified Dafny model

This project models the core of an Express/Mongoose backend where clients leave
feedback (a text, a 1–5 rating and an optional image) and admins reply to it. It
covers four parts:

- **The Feedback and Reply schemas** (`feedback_model.dfy`, module `FeedbackModel`).
  Documents are datatypes. What Mongoose does on `create` and `save` is a pair of
  validating constructors: `required`, the `trim` setter, the cast to Number, and
  `min`/`max`, with all failures reported together.
- **The upload file filter** (`upload.dfy`, module `Upload`). It covers the regular
  expression test `/jpeg|jpg|png|gif|webp/` on the lower-cased extension and on the
  MIME type, the callback it answers with, and the 5 MiB size limit.
- **The AI reply-suggestion flow** (`suggestions.dfy`, module `Suggestions`):
  - the snippet and the prompt;
  - choosing the generated text from the two response shapes;
  - the split / clean / filter / slice pipeline;
  - the templated fallback;
  - the not-found / generated / fallback case split.

  The text-generation endpoint is an input (`Upstream`): a failed call, or a JSON
  body.
- **The feedback handlers** (`feedback_store.dfy`, module `FeedbackController`).
  The collection is a class `FeedbackStore` that holds a map from id to document.
  - `createFeedback` and `addReplyToFeedback` update that map in place.
  - `getAllFeedbacks`, `getUserFeedbacks`, `getFeedbackById` and
    `getAIReplySuggestions` read it.
  - The listing handlers build their filter and sort direction step by step, as the
    source does. `Find` then selects and orders the matching documents.

Two supporting modules model the JavaScript primitives this code relies on:

- `js_strings.dfy`: white space as `trim` and `\s` define it, `trim`, substring
  search, and lower-casing.
- `js_numbers.dfy`: `${n}` for integers, and `Number.parseInt`.

`wrappers.dfy` holds `Option` and `Result`.

What the code does, where a quick reading would expect otherwise:

- A generated text that yields no line is a success with an empty list, not a
  fallback.
- A lookup that throws gives the fallback with "N/A"; a missing Feedback gives a 404
  that never reaches the fallback.
- The second fallback reply contains U+2019.
- The filter's regular expression is unanchored, and the MIME type is not
  lower-cased.
- A form without a `rating` field reaches Mongoose as NaN. The result is a cast
  failure, so the schema's "Rating is required" message cannot come from
  `createFeedback` (`FeedbackController.MissingRatingIsCastFailure`).
- A reply without text is pushed, but the `save` that follows fails validation. The
  collection is then unchanged and the error goes to the error middleware.

## Model

| member | source | states |
|---|---|---|
| JsStrings.Trim | models/Feedback.js:28 | `trim` gives a string with no white space at either end; a string already trimmed is returned unchanged |
| JsStrings.TrimEmptyIff | models/Feedback.js:25-29 | the trimmed text is empty exactly when the text is all white space, the case `required` rejects |
| JsStrings.TrimKeepsMiddle | controllers/feedbackController.js:247 | what `trim` keeps is a contiguous part of the input, with only white space on either side |
| JsStrings.TrimOfTrimStart | controllers/feedbackController.js:247 | removing `\s*` before `trim` changes nothing: the cleaned line is the trimmed text after the marker |
| JsStrings.ToLower | middleware/upload.js:30 | lower-casing keeps the length and maps each character on its own |
| JsNumbers.DigitValue | controllers/feedbackController.js:18 | a character is worth less than 10 exactly when it is a decimal digit |
| JsNumbers.NatToDecimal | controllers/feedbackController.js:220 | the decimal numeral is non-empty, all digits, with no leading zero |
| JsNumbers.IntToString | controllers/feedbackController.js:220-222 | `${n}` is a minus sign exactly for a negative integer, followed by nothing but decimal digits |
| JsNumbers.ParseInt | controllers/feedbackController.js:18 | `Number.parseInt` gives a number only when, after the leading white space, the text starts with a digit or a sign; ParseIntOfIntToString and ParseIntNaN pin down its value |
| JsNumbers.ParseIntOfIntToString | controllers/feedbackController.js:18 | `Number.parseInt` reads back any integer written in decimal, whatever non-alphanumeric text follows it |
| JsNumbers.ParseIntNaN | controllers/feedbackController.js:18 | a string that starts with something other than white space, a sign or a digit is NaN |
| JsNumbers.ParseIntUndefined | controllers/feedbackController.js:18 | an absent form field, read as "undefined", is NaN |
| FeedbackModel.SchemaMessage | models/Feedback.js:25-35 | only the text and rating `required` rules carry a message of the schema's own |
| FeedbackModel.ValidReply | models/Feedback.js:3-17 | a stored reply has a non-empty text (the `required` rule) |
| FeedbackModel.ValidFeedback | models/Feedback.js:19-45 | a stored Feedback has a text that is trimmed and not empty, a rating from 1 to 5, and only valid replies; the owner being present is built into the type |
| FeedbackModel.CreateFeedbackDocument | models/Feedback.js:19-45 | creation succeeds exactly when there is an owner, a text that is not blank, and a number between 1 and 5; the document is valid, with the trimmed text, the given image path, no replies, and the creation time; a failure reports a non-empty set of errors, and "text required" and the `min`/`max` errors appear exactly when their rule is broken |
| FeedbackModel.CreateReplyDocument | models/Feedback.js:3-17 | a reply is built exactly when it has a non-empty text and an admin; otherwise the failures are the text and/or admin errors |
| FeedbackModel.AppendReply | models/Feedback.js:40 | pushing a reply adds exactly that one at the end, keeps earlier replies and all other paths, and keeps a valid document valid |
| Upload.RegexTestIsSubstringSearch | middleware/upload.js:29-31 | the scanning regular-expression test holds exactly when one of the five names occurs anywhere in the string |
| Upload.RegexTest | middleware/upload.js:29-31 | the regular-expression test, tried at every position from the start; RegexTestIsSubstringSearch shows it is substring containment |
| Upload.FileFilter | middleware/upload.js:28-38 | accepted exactly when the lower-cased extension and the unchanged MIME type both contain an allowed name; acceptance carries no error, rejection carries "Only image files are allowed!" |
| Upload.SizeLimitIsFiveMebibytes | middleware/upload.js:44 | the size limit is 5242880 bytes |
| Upload.WithinSizeLimit | middleware/upload.js:44 | a file passes the limit exactly when it has at most `5 * 1024 * 1024` bytes (SizeLimitIsFiveMebibytes) |
| Upload.UpperCaseExtensionAccepted | middleware/upload.js:30 | ".JPG" with "image/jpeg" is accepted, because the extension is lower-cased |
| Upload.UpperCaseMimeTypeRejected | middleware/upload.js:31 | ".jpg" with "IMAGE/JPEG" is rejected with the error, because the MIME type is not lower-cased |
| Upload.UnanchoredMatchAccepted | middleware/upload.js:29-31 | a MIME type that only contains "png" inside a longer word passes |
| Suggestions.Snippet | controllers/feedbackController.js:214-217 | a text of at most 100 characters is kept; a longer one becomes its first 100 characters plus one "…"; the snippet never exceeds 101 characters and starts with the text's first characters |
| Suggestions.Prompt | controllers/feedbackController.js:219-225 | the prompt is the head, the snippet verbatim and the tail, in that order, and its length is the template plus twice the rating's numeral plus the snippet |
| Suggestions.PromptHead | controllers/feedbackController.js:220 | the head is "User rated us " followed by the rating's numeral, then "/5 and said: \"" |
| Suggestions.PromptTail | controllers/feedbackController.js:220-224 | the tail is the closing quote and the scripted first reply followed by the rating's numeral again, then the instructions |
| Suggestions.PromptIsBounded | controllers/feedbackController.js:214-225 | for a stored (valid) Feedback the prompt has a bounded length |
| Suggestions.RawText | controllers/feedbackController.js:241-244 | a null body raises; otherwise the first truthy candidate (`generated_text`, then the first array item's) is used and must be a string, else "" is used; a non-empty text always comes from one of the two candidates |
| Suggestions.Truthy | controllers/feedbackController.js:242-243 | JavaScript truthiness of a property read: `undefined`, `null`, `false`, `0` and `""` are falsy, everything else is truthy |
| Suggestions.GeneratedText | controllers/feedbackController.js:242 | `generated_text` is found only on an object |
| Suggestions.FirstItemText | controllers/feedbackController.js:243 | the first element's `generated_text` is found only for a non-empty array, and is that element's property |
| Suggestions.NextSeparator | controllers/feedbackController.js:246 | finds the first line feed followed by a digit and a period, and there is none before it |
| Suggestions.SplitNumbered | controllers/feedbackController.js:246 | the split has at least one piece; SplitNumberedIsNumberedSplit and NumberedSplitIsUnique characterise it |
| Suggestions.SplitNumberedIsNumberedSplit | controllers/feedbackController.js:246 | the split pieces rejoin to the text, with the line feeds put back; no piece contains a separator; every piece after the first begins with a digit and a period |
| Suggestions.NumberedSplitIsUnique | controllers/feedbackController.js:246 | any split with those three properties is the one computed |
| Suggestions.SplitNumberedCharacterised | controllers/feedbackController.js:246 | a sequence of pieces is the split of a text if and only if it has the three properties |
| Suggestions.StripNumber | controllers/feedbackController.js:247 | a line that begins with a digit and a period loses those two characters and the white space after them, and what is left begins with no white space; any other line is unchanged |
| Suggestions.CleanLine | controllers/feedbackController.js:247 | a cleaned line is the line with one leading digit and period removed, if present, then trimmed |
| Suggestions.CleanLines | controllers/feedbackController.js:247 | every piece is cleaned in place and comes out trimmed |
| Suggestions.NonEmpty | controllers/feedbackController.js:248 | the filter keeps only non-empty strings, all taken from the input |
| Suggestions.NonEmptyKeepsOrder | controllers/feedbackController.js:248 | the filter is the input read at increasing positions, and every position it passes over holds the empty string: order is kept and no non-empty string is dropped |
| Suggestions.NonEmptyIsEmptyIff | controllers/feedbackController.js:248 | the filter leaves nothing exactly when every string is empty |
| Suggestions.SelectSuggestions | controllers/feedbackController.js:247-249 | the selection is the first two non-empty cleaned pieces, or all of them when there are fewer, each trimmed |
| Suggestions.ParseSuggestions | controllers/feedbackController.js:245-249 | the suggestions are the first two non-empty cleaned pieces of the split, or all when fewer; at most two, each non-empty and trimmed |
| Suggestions.SuggestionsArePieces | controllers/feedbackController.js:245-249 | the suggestions are cleaned pieces of the split at increasing positions, and every piece passed over before the last suggestion (before the end, when fewer than two are read) cleans to the empty string |
| Suggestions.NoSuggestionsIff | controllers/feedbackController.js:245-249 | no suggestion is read exactly when every piece cleans to the empty string |
| Suggestions.SelectTwoPieces | controllers/feedbackController.js:247-249 | two pieces that both clean to something are both kept, in order |
| Suggestions.SelectThreePieces | controllers/feedbackController.js:247-249 | of three pieces whose first two clean to something, those two are kept in order and the third is cut |
| Suggestions.UnnumberedLineTakesASlot | controllers/feedbackController.js:245-249 | for "a\nd.b\nd.c" with an unnumbered first line and the first two lines not blank, the suggestions are [trim(a), trim(b)]: the unnumbered line takes a place |
| Suggestions.TwoNumberedLines | controllers/feedbackController.js:245-249 | any "d.a\nd.b" with single digits and non-blank lines without line feeds gives exactly [trim(a), trim(b)] |
| Suggestions.ShortExample | controllers/feedbackController.js:245-249 | "1. A\n2. B" gives ["A", "B"] |
| Suggestions.PreambleExample | controllers/feedbackController.js:245-249 | "Sure!\n1. Thanks\n2. Great" gives ["Sure!", "Thanks"] |
| Suggestions.EmptyTextNoSuggestions | controllers/feedbackController.js:241-249 | the "" default yields no suggestion |
| Suggestions.FallbackSuggestions | controllers/feedbackController.js:259-262 | the fallback is exactly two replies |
| Suggestions.FallbackNamesRating | controllers/feedbackController.js:256-262 | each fallback reply starts with "Thank you for giving us a ", and `parseInt` of what follows gives back the rating, or NaN for "N/A" |
| Suggestions.FallbackRepliesDiffer | controllers/feedbackController.js:260-261 | the two fallback replies differ, and the second contains the curly apostrophe U+2019 |
| Suggestions.Respond | controllers/feedbackController.js:203-270 | not-found exactly when the lookup found nothing; fallback exactly when the lookup threw, or the call failed, or the body could not be read; the fallback names the rating, or "N/A" after a failed lookup; generated suggestions are the parse of the raw text; a success has at most two suggestions |
| Suggestions.PostedPrompt | controllers/feedbackController.js:207-239 | a prompt is posted exactly when a Feedback was found, and it is the prompt for that Feedback's rating and the snippet of its text, with a bounded length |
| Suggestions.NotFoundAnswer | controllers/feedbackController.js:207-212 | an absent Feedback gives 404, `success: false`, "Feedback not found", no `isFallback`, and no prompt |
| Suggestions.FailureFallsBack | controllers/feedbackController.js:252-268 | a failed call or an unreadable body after a lookup gives 200, `success`, `isFallback: true`, and two replies that carry the record's rating |
| Suggestions.LookupFailureFallsBack | controllers/feedbackController.js:252-268 | a lookup that throws gives 200 with `isFallback: true` and replies that carry no number ("N/A") |
| Suggestions.EmptyParseIsNotFallback | controllers/feedbackController.js:241-251 | a body whose text yields no line gives a success with an empty list and no `isFallback` |
| Suggestions.MalformedBodyFallsBack | controllers/feedbackController.js:241-244 | a null body, or a truthy `generated_text` that is not a string, falls back |
| Suggestions.ArrayShapeIsRead | controllers/feedbackController.js:241-244 | for an array body, the first element's `generated_text` is parsed |
| FeedbackController.RatingArgument | controllers/feedbackController.js:18 | the rating field becomes a number exactly when `parseInt` reads one, and NaN otherwise; never "missing" |
| FeedbackController.SortOrder | controllers/feedbackController.js:57-64 | ascending exactly when `sortBy` is "oldest" |
| FeedbackController.InsertSorted | controllers/feedbackController.js:67-70 | inserting adds exactly the one id to the listing |
| FeedbackController.InsertSortedIsSorted | controllers/feedbackController.js:67-70 | inserting into a listing sorted by creation time keeps it sorted |
| FeedbackController.FeedbackStore.constructor | models/Feedback.js:47 | a new collection is empty and valid |
| FeedbackController.FeedbackStore.Valid | models/Feedback.js:19-45 | every stored document satisfies the schema, and every id was handed out before the next one; every method that updates the collection keeps this |
| FeedbackController.FeedbackStore.Find | controllers/feedbackController.js:67-70 | every matching document is listed exactly once, sorted by creation time in the requested direction |
| FeedbackController.FeedbackStore.CreateFeedback | controllers/feedbackController.js:10-42 | the caller owns the draft; the rating is parsed; `imageUrl` is "/uploads/"+filename exactly when a file came; a valid draft is stored under a fresh id and nothing else changes; an invalid one gives its errors and leaves the collection unchanged; validity of the collection is kept |
| FeedbackController.FeedbackStore.GetAllFeedbacks | controllers/feedbackController.js:47-86 | a cast failure exactly when `rating` is truthy and not a number; otherwise every document with that exact rating (every document when `rating` is falsy), each once, oldest first exactly when `sortBy` is "oldest", newest first otherwise, with `count` equal to the number listed |
| FeedbackController.FeedbackStore.GetUserFeedbacks | controllers/feedbackController.js:95-129 | always a listing: exactly the caller's documents, each once, in the requested order, with `count` equal to the number listed; no rating filter |
| FeedbackController.FeedbackStore.GetFeedbackById | controllers/feedbackController.js:137-162 | 404 exactly when absent; 403 exactly when present, not the caller's, and the caller is not an admin; otherwise 200 with the stored document |
| FeedbackController.FeedbackStore.AddReplyToFeedback | controllers/feedbackController.js:170-197 | 404 and no change exactly when absent; a save failure with no change exactly when the text is missing or empty; otherwise the document gains exactly one reply at the end, with the body's text, the caller as admin and the current time, while all other documents and paths are unchanged |
| FeedbackController.FeedbackStore.GetAIReplySuggestions | controllers/feedbackController.js:203-270 | the prompt and the response are those of the flow for what the lookup gives (threw, absent, found); the prompt is bounded; a success has at most two suggestions |
| FeedbackController.MissingRatingIsCastFailure | controllers/feedbackController.js:18 | a form without a rating fails creation with the cast error, never with "Rating is required" |
| FeedbackController.RatingFieldIsParsed | controllers/feedbackController.js:18 | a rating field holding a numeral from 1 to 5, with a real text, creates the document with that rating |

## Left out

- HTTP and routing: the Express app, CORS, static serving and route wiring are left out. The `protect` gate appears only as the `Caller` input. The `admin` gate on listing, replying and suggestions is a precondition of those handlers.
- The outbound call: the URL, headers, credential, request parameters and the 5000 ms timeout are left out. The call is the `Upstream` input, either a failure or a JSON body.
- `console.error` logging in the suggestion fallback is left out.
- Mongoose and MongoDB mechanics are left out:
  - `populate`, `.lean()`, `toObject()` and the `_id`-to-string serialisation of the listings.
  - The second `findById` after a create or a save: each handler returns the document it stored.
  - ObjectId generation: ids are naturals handed out in sequence.
  - The query engine: `Find` is a search over the map whose result is specified.
  - `Date.now` and the current time are inputs.
- Database failures in `createFeedback`, `getAllFeedbacks`, `getUserFeedbacks`, `getFeedbackById` and `addReplyToFeedback` are left out, apart from the validation and cast failures modelled above. Only the suggestion handler has a lookup that throws, because only there does a throw change the answer (the "N/A" fallback).
- The error middleware is not part of this model. A handler that calls `next(error)` is modelled as an outcome carrying the validation errors (`CreateRejected`, `ReplyRejected`) or a cast failure (`ListCastFailed`); the status code the middleware would send is left out.
- FeedbackController.FeedbackStore.GetFeedbackById: `populate` of a document whose owner was deleted sets `user` to null, and the owner check then throws. Users are not modelled, so this path is left out.
- Default Mongoose message texts are left out. Only the two messages the schema declares are modelled. The others are the `FieldError` kind alone.
- FeedbackController.FeedbackStore.Find: documents with the same `createdAt` may come in either order; the database's tie order is not modelled.
- Each handler is one atomic step on the collection. In the source, `findById`, the `push` and the `save` of `addReplyToFeedback` are separated by `await`s, so two requests on one Feedback can interleave between those steps. Interleaving of handlers, and what Mongoose then writes, is not modelled.
- Body fields are absent or strings. `express.json()` lets `text`, `rating` and a reply's `text` be any JSON value; a number, an object or an array there (cast by Mongoose, or failing its cast) is not modelled.
- Query parameters given as arrays (`?rating=1&rating=2`) are left out; a parameter is absent or a string.
- Multer storage is left out: the `mkdirSync` call, the time- and random-based file names, the single-field limit and the stream handling. `path.extname` and the MIME type are inputs to `FileFilter`, and the stored file name is an input to `CreateFeedback`.
- Upload.WithinSizeLimit states the limit only; multer's enforcement while streaming is not modelled.
- JsStrings.ToLower lower-cases ASCII letters only. JavaScript's full Unicode lower-casing can only add matches where a non-ASCII letter lower-cases to one of the five ASCII names; that case is not modelled.
- Strings are sequences of Unicode scalar values. JavaScript counts UTF-16 code units, so the 100-character snippet cut differs for texts with characters outside the Basic Multilingual Plane.
- JsNumbers.ParseInt works on unbounded integers. JavaScript numbers lose precision above 2^53, and `${n}` switches to exponent notation from 10^21; neither is modelled.
- JsNumbers.IntToString covers integers. A rating is always an integer once validated, so fractional numbers are not modelled, and neither is `-0`.
