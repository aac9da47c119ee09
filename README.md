# ACSV encoding detection orchestration, in Dafny

This project models how ACSV (a Ruby CSV helper library) picks the character
encoding of a CSV file or string: `ACSV::Detect.encoding` in
`lib/acsv/detect/encoding.rb`. The three detector backends (Holmes, RChardet,
UChardet) are opaque values. Each has a `require_name`, a fixed `present?`
flag and a detection function from (data, options) to an encoding name or
`nil`. The orchestration around them is modelled as the code does it:

- the declared backend list `ENCODING_DETECTORS_ALL` and its `select(&:present?)`
  subset `ENCODING_DETECTORS_AVAIL`;
- `options_with_default`, which is `{confidence: 0.6}.merge options`;
- the preview of a `File`: `tell`, `read(PREVIEW_BYTES)` with PREVIEW_BYTES = 32768,
  then `seek` back;
- `detector_do` with the block `encoding` gives it: with a truthy `:method`,
  the first available detector with that name (or `nil`) is yielded once;
  otherwise every available detector is yielded in order, and the first
  non-nil answer is returned at once;
- `encoding_methods` and `encoding_methods_all`.

Files:

- `wrappers.dfy`: `Option`.
- `ruby_io.dfy` (module `RubyIO`): a Ruby String or `nil` (`Data`), and a `File`
  class with immutable content, a `pos` field and `Tell`, `Read`, `Seek`.
- `detect_encoding.dfy` (module `DetectEncoding`): options as a map, detectors,
  the registries, the search, the specification functions `Result` and
  `Invoked`, and the methods `DetectorDo` and `Encoding`.
- `encoding_properties.dfy` (module `EncodingProperties`): lemmas about short-circuit,
  order and availability, `:method`, option defaults and the name listings.

The model keeps these behaviours of the code as written:

- With no `:method`, if no detector answers, `encoding` returns the value of
  `ENCODING_DETECTORS_AVAIL.each`. That value is the detector array, not `nil`
  (`Outcome.DetectorArray`).
- With `:method`, if its detector declines, `encoding` returns `nil` (`NilResult`).
- If `:method` names no available detector, `nil` is yielded and `nil.encoding` raises.
  The model gives this its own outcome, `NoMethodError`.
- A positive `read` at or past the end of the file gives `nil`, and that `nil`
  is what the detectors receive.
- `:method` is tested for Ruby truthiness, so `nil` and `false` select all detectors.
  It is then compared with `==` against a String name, so a Symbol never matches.

The doc comment of `encoding` (lib/acsv/detect/encoding.rb:22) promises
`@return [String] most probable encoding`. The code breaks that promise in two
ways, and the model keeps both: without `:method`, a search in which no detector
answers returns `ENCODING_DETECTORS_AVAIL` itself (lines 34-38, 60-62); an
unknown `:method` raises NoMethodError (lines 57-58).

Each call to `Encoding` and `DetectorDo` also returns `tried`: the positions
in the available list whose detection function was called, in call order.
This trace is how the model states which detectors were invoked.

## Model

| member | source | states |
|---|---|---|
| `RubyIO.ReadResult` | lib/acsv/detect/encoding.rb:28 | a read of 0 bytes is the empty string; a positive read at or past the end of the file is `nil`; otherwise it gives 1 to `n` bytes, taken from the current position; fewer than `n` bytes only when the read reaches the end of the file |
| `RubyIO.File.Tell` | lib/acsv/detect/encoding.rb:27 | returns the current position |
| `RubyIO.File.Read` | lib/acsv/detect/encoding.rb:28 | returns `ReadResult` of the content at the old position; the position moves past the bytes read |
| `RubyIO.File.Seek` | lib/acsv/detect/encoding.rb:29 | the position becomes the given offset |
| `DetectEncoding.OptionsWithDefault` | lib/acsv/detect/encoding.rb:69-71 | the merged keys are the caller's keys plus `:confidence`; every caller key keeps the caller's value; `:confidence` is 0.6 when the caller left it out |
| `DetectEncoding.PresentPositions` | lib/acsv/detect/encoding.rb:15 | the positions of present detectors, strictly increasing, each one present, and including every present position |
| `DetectEncoding.SelectPresent` | lib/acsv/detect/encoding.rb:15 | every detector in the available list is present |
| `DetectEncoding.FirstMatch` | lib/acsv/detect/encoding.rb:57 | the result is the first index whose detector matches (`select{...}.first`), or the list length when no detector matches |
| `DetectEncoding.DetectorDo` | lib/acsv/detect/encoding.rb:55-64 | the loop with its early `return` and the single `:method` yield give exactly the outcome `Result` and the call trace `Invoked` |
| `DetectEncoding.Encoding` | lib/acsv/detect/encoding.rb:23-39 | for a File, the position afterwards equals the position before, and detectors see `ReadResult(content, pos, 32768)`; other input is passed on unchanged; the options are merged; outcome and trace are those of `Result` and `Invoked` over the available list |
| `EncodingProperties.PresentPositionsAllPresent` | lib/acsv/detect/encoding.rb:60-61 | in a list where every detector is present, the present positions below `n` are exactly 0..n-1 |
| `EncodingProperties.AvailableInDeclarationOrder` | lib/acsv/detect/encoding.rb:14-15 | the available list is `all` restricted to its present detectors, in declaration order, with each present detector exactly once |
| `EncodingProperties.RedundantPresentCheck` | lib/acsv/detect/encoding.rb:61 | the `present?` test inside the loop removes nothing from the available list |
| `EncodingProperties.FirstMatchOfAvailable` | lib/acsv/detect/encoding.rb:57 | a search of the available list finds the first present detector of `all` that matches; it finds none exactly when no present detector of `all` matches |
| `EncodingProperties.WinnerPosition` | lib/acsv/detect/encoding.rb:60-62 | the first detector of the available list to answer is, read back on `all`, the first present detector of `all` to answer |
| `EncodingProperties.ShortCircuit` | lib/acsv/detect/encoding.rb:34-38 | without `:method`, the outcome is the answer of the first available detector that answers, in declaration order; when none answers, the outcome is the available array |
| `EncodingProperties.InvokedPrefix` | lib/acsv/detect/encoding.rb:60-62 | without `:method`, the calls go to available detectors 0, 1, ... in order, up to and including the one that answers (all of them when none answers) |
| `EncodingProperties.ShortCircuitInvocations` | lib/acsv/detect/encoding.rb:34-38 | without `:method`, only available detectors are called, in declaration order and each once; every one up to the winner is called and none after it |
| `EncodingProperties.MethodRestriction` | lib/acsv/detect/encoding.rb:56-58 | with `:method` = the name of an available detector, only the first available detector with that name is called; the outcome is its answer, or `nil` when it declines |
| `EncodingProperties.UnknownMethod` | lib/acsv/detect/encoding.rb:57-58 | with a truthy `:method`, the outcome is NoMethodError exactly when no available detector has that name; no detector is called then; a non-String `:method` always gives NoMethodError |
| `EncodingProperties.DefaultConfidence` | lib/acsv/detect/encoding.rb:70 | leaving out `:confidence` gives the same merged options as passing 0.6 |
| `EncodingProperties.EncodingMethodsSubsequence` | lib/acsv/detect/encoding.rb:42-49 | `encoding_methods_all` lists the three names in declaration order; `encoding_methods` is the order-preserving subsequence of available names; it has no duplicates when the three names are distinct |
| `DetectEncoding.DetectorsAll` | lib/acsv/detect/encoding.rb:14 | the registry Holmes, RChardet, UChardet in that order; its names are stated by `EncodingMethodsSubsequence` |
| `DetectEncoding.DetectorsAvail` | lib/acsv/detect/encoding.rb:15 | every entry is present; order and completeness are stated by `AvailableInDeclarationOrder` |
| `DetectEncoding.EncodingMethods` | lib/acsv/detect/encoding.rb:42-44 | the names of the available detectors; `EncodingMethodsSubsequence` states that they are an order-preserving subsequence of all names |
| `DetectEncoding.EncodingMethodsAll` | lib/acsv/detect/encoding.rb:47-49 | the names of all three detectors; `EncodingMethodsSubsequence` states them in declaration order |
| `DetectEncoding.Result` | lib/acsv/detect/encoding.rb:34-38 | the outcome of the block under `detector_do`: the available array only without `:method` (and then it is the available names), `nil` or NoMethodError only with it, and a found encoding is some available detector's answer; `ShortCircuit`, `MethodRestriction` and `UnknownMethod` pin it down |
| `DetectEncoding.Invoked` | lib/acsv/detect/encoding.rb:55-64 | the called positions are in range and strictly increasing (each called once, in order), and at most one with `:method`; `InvokedPrefix`, `ShortCircuitInvocations` and `MethodRestriction` pin it down |

## Left out

- The backends (`encoding_holmes`, `encoding_rchardet`, `encoding_uchardet`) are not part of this model.
  Their statistical guessing and their confidence test are an opaque function per detector.
- How `present?` probes whether a gem can be loaded is left out. Availability is a fixed boolean per detector,
  so the presence test at line 61 always agrees with the filter at line 15.
- `confidence` is a Ruby Float that the orchestrator only forwards. It is carried as a value and never computed with.
- Ruby Hash insertion order is not modelled, because options are a map. Hash default procs and non-Hash
  `options` arguments are also left out.
- Inputs that are neither a `File` nor a String/`nil` (a StringIO, say) are passed to detectors unchanged by the code.
  The model's `DataInput` covers only Strings and `nil`.
- Real file I/O is left out: OS errors, partial reads and failed seeks. A file is its content plus a position.
- NoMethodError is a result value here, while Ruby raises it as an exception.
  The detector array returned on exhaustion is represented by the detectors' names.
- A Ruby String input is modelled as its bytes (`Bytes`); its encoding tag is dropped, so detectors can depend only on the bytes.
- The default argument `options={}` of `encoding` is represented by the caller passing the empty map.
- `Value.Num` holds a real number and stands for both Ruby Integer and Float values, which the model never distinguishes.
- Thread safety of evaluating `ENCODING_DETECTORS_AVAIL` at load time is left out.
  That is a concurrency concern, and the model is sequential.
