/**
 * Encoding detection orchestration of ACSV::Detect
 * (lib/acsv/detect/encoding.rb).
 *
 * Three detector backends are declared in a fixed order; those whose gem is
 * present form the available list. `Encoding` merges the caller's options over
 * the default confidence, takes a bounded preview of a File without moving its
 * position (any other input is used as it is), and asks the available
 * detectors in order, stopping at the first that answers. The backends
 * themselves are values: a name, a fixed presence flag and a detection
 * function the model does not look into.
 */
module DetectEncoding {
  import opened Wrappers
  import opened RubyIO

  /** The Ruby objects that occur as keys and values of an options Hash. */
  datatype Value = Nil | Bool(b: bool) | Num(x: real) | Str(s: string) | Sym(name: string)

  /** A Ruby Hash of options; a Dafny map is a value, so no caller's Hash is ever changed. */
  type Options = map<Value, Value>

  const CONFIDENCE_KEY: Value := Sym("confidence")
  const METHOD_KEY: Value := Sym("method")

  /** Default confidence level for detection to succeed (forwarded, never computed with). */
  const CONFIDENCE: real := 0.6
  /** Number of bytes of a File that detectors are shown. */
  const PREVIEW_BYTES: nat := 8 * 4096

  /** Ruby truthiness: everything except `nil` and `false`. */
  predicate Truthy(v: Value) {
    v != Nil && v != Bool(false)
  }

  /** `h[k]`: the stored value, or `nil` for a missing key. */
  function Lookup(h: Options, k: Value): Value {
    if k in h then h[k] else Nil
  }

  /** `{confidence: CONFIDENCE}.merge options`: the caller's entries win. */
  function OptionsWithDefault(options: Options): (r: Options)
    ensures r.Keys == options.Keys + {CONFIDENCE_KEY}
    ensures forall k :: k in options ==> r[k] == options[k]
    ensures r[CONFIDENCE_KEY] ==
      if CONFIDENCE_KEY in options then options[CONFIDENCE_KEY] else Num(CONFIDENCE)
  {
    map[CONFIDENCE_KEY := Num(CONFIDENCE)] + options
  }

  /**
   * One detector backend: its `require_name`, whether its gem is `present?`,
   * and its `encoding(data, options)`, which gives an encoding name or `nil`.
   */
  datatype Detector = Detector(requireName: string, present: bool, detect: (Data, Options) -> Option<string>)

  /** The three backends the library ships. */
  datatype Backends = Backends(holmes: Detector, rchardet: Detector, uchardet: Detector)

  /** ENCODING_DETECTORS_ALL, in declaration (priority) order. */
  function DetectorsAll(b: Backends): seq<Detector> {
    [b.holmes, b.rchardet, b.uchardet]
  }

  /** The positions below `n` of the detectors in `ds` that are present, in increasing order. */
  function PresentPositions(ds: seq<Detector>, n: nat): (r: seq<nat>)
    requires n <= |ds|
    ensures forall t :: 0 <= t < |r| ==> r[t] < n && ds[r[t]].present
    ensures forall t, u :: 0 <= t < u < |r| ==> r[t] < r[u]
    ensures forall q :: 0 <= q < n && ds[q].present ==> q in r
    decreases n
  {
    if n == 0 then []
    else PresentPositions(ds, n - 1) + (if ds[n - 1].present then [n - 1] else [])
  }

  /** `ds.select(&:present?)`: the present detectors, in the order of `ds`. */
  function SelectPresent(ds: seq<Detector>): (r: seq<Detector>)
    ensures forall t :: 0 <= t < |r| ==> r[t].present
  {
    var p := PresentPositions(ds, |ds|);
    seq(|p|, t requires 0 <= t < |p| => ds[p[t]])
  }

  /** ENCODING_DETECTORS_AVAIL. */
  function DetectorsAvail(b: Backends): (r: seq<Detector>)
    ensures forall t :: 0 <= t < |r| ==> r[t].present
  {
    SelectPresent(DetectorsAll(b))
  }

  /** `ds.map(&:require_name)`. */
  function Names(ds: seq<Detector>): seq<string> {
    seq(|ds|, i requires 0 <= i < |ds| => ds[i].requireName)
  }

  /** `encoding_methods`: names of the available detectors. */
  function EncodingMethods(b: Backends): seq<string> {
    Names(DetectorsAvail(b))
  }

  /** `encoding_methods_all`: names of all detectors, available or not. */
  function EncodingMethodsAll(b: Backends): seq<string> {
    Names(DetectorsAll(b))
  }

  /** What a search over a detector list is looking for. */
  datatype Wanted =
    | Accepting(data: Data, opts: Options) // yielded (present) and answers non-nil
    | NamedAs(name: Value)                 // `d.require_name == options[:method]`

  predicate Matches(w: Wanted, d: Detector) {
    match w
    case Accepting(data, opts) => d.present && d.detect(data, opts).Some?
    case NamedAs(m) => m == Str(d.requireName)
  }

  /** Index of the first detector of `ds` matching `w`, or `|ds|` when none does. */
  function FirstMatch(ds: seq<Detector>, w: Wanted): (k: nat)
    ensures k <= |ds|
    ensures forall j :: 0 <= j < k ==> !Matches(w, ds[j])
    ensures k < |ds| ==> Matches(w, ds[k])
  {
    if ds == [] then 0
    else if Matches(w, ds[0]) then 0
    else 1 + FirstMatch(ds[1..], w)
  }

  /** The value `encoding` produces (or the error it raises). */
  datatype Outcome =
    | Found(encoding: string)        // `return enc` from inside the block
    | NilResult                      // `:method` given, its detector declined
    | DetectorArray(names: seq<string>) // no `:method`, all declined: `each` returns the array
    | NoMethodError                  // `:method` matched nothing: `nil.encoding(...)`

  /** The outcome of running the block of `encoding` under `detector_do` over `avail`. */
  function Result(avail: seq<Detector>, opts: Options, data: Data): (r: Outcome)
    ensures r.DetectorArray? ==> !Truthy(Lookup(opts, METHOD_KEY)) && r.names == Names(avail)
    ensures r.NilResult? || r.NoMethodError? ==> Truthy(Lookup(opts, METHOD_KEY))
    ensures r.Found? ==> exists i :: 0 <= i < |avail| && avail[i].detect(data, opts) == Some(r.encoding)
  {
    var m := Lookup(opts, METHOD_KEY);
    if Truthy(m) then
      var i := FirstMatch(avail, NamedAs(m));
      if i == |avail| then NoMethodError
      else match avail[i].detect(data, opts)
        case Some(e) => Found(e)
        case None => NilResult
    else
      var k := FirstMatch(avail, Accepting(data, opts));
      if k < |avail| then Found(avail[k].detect(data, opts).value)
      else DetectorArray(Names(avail))
  }

  /** Positions in `avail` of the detectors whose `encoding` is invoked, in call order. */
  function Invoked(avail: seq<Detector>, opts: Options, data: Data): (r: seq<nat>)
    ensures forall t :: 0 <= t < |r| ==> r[t] < |avail|
    ensures forall t, u :: 0 <= t < u < |r| ==> r[t] < r[u]
    ensures Truthy(Lookup(opts, METHOD_KEY)) ==> |r| <= 1
  {
    var m := Lookup(opts, METHOD_KEY);
    if Truthy(m) then
      var i := FirstMatch(avail, NamedAs(m));
      if i == |avail| then [] else [i]
    else
      var k := FirstMatch(avail, Accepting(data, opts));
      PresentPositions(avail, if k < |avail| then k + 1 else |avail|)
  }

  /**
   * `detector_do(options)` together with the block `encoding` passes to it:
   * with a truthy `:method` the first detector named by it (or `nil`) is
   * yielded once; otherwise every present detector is yielded in order until
   * one answers. `tried` records the positions whose `encoding` was called.
   */
  method DetectorDo(avail: seq<Detector>, opts: Options, data: Data) returns (r: Outcome, tried: seq<nat>)
    ensures r == Result(avail, opts, data)
    ensures tried == Invoked(avail, opts, data)
  {
    var m := Lookup(opts, METHOD_KEY);
    if Truthy(m) {
      var i := FirstMatch(avail, NamedAs(m));
      if i == |avail| {
        r, tried := NoMethodError, [];
      } else {
        tried := [i];
        var enc := avail[i].detect(data, opts);
        r := if enc.Some? then Found(enc.value) else NilResult;
      }
    } else {
      tried := [];
      var i := 0;
      while i < |avail|
        invariant i <= |avail|
        invariant tried == PresentPositions(avail, i)
        invariant forall j :: 0 <= j < i ==> !Matches(Accepting(data, opts), avail[j])
      {
        var detector := avail[i];
        if detector.present {
          tried := tried + [i];
          var enc := detector.detect(data, opts);
          if enc.Some? {
            r := Found(enc.value);
            return;
          }
        }
        i := i + 1;
      }
      r := DetectorArray(Names(avail));
    }
  }

  /** What `encoding` is given: a File, or any other object (a String or `nil`). */
  datatype Input = FileInput(file: File) | DataInput(data: Data)

  /**
   * `encoding(file_or_data, options)`. A File is read for at most
   * PREVIEW_BYTES bytes from its current position and then put back there.
   */
  method Encoding(b: Backends, input: Input, options: Options) returns (r: Outcome, tried: seq<nat>)
    modifies if input.FileInput? then {input.file} else {}
    ensures input.FileInput? ==> input.file.pos == old(input.file.pos)
    ensures
      var opts := OptionsWithDefault(options);
      var data := if input.FileInput?
        then ReadResult(input.file.content, old(input.file.pos), PREVIEW_BYTES)
        else input.data;
      r == Result(DetectorsAvail(b), opts, data) && tried == Invoked(DetectorsAvail(b), opts, data)
  {
    var opts := OptionsWithDefault(options);
    var data: Data;
    if input.FileInput? {
      var f := input.file;
      var position := f.Tell();
      data := f.Read(PREVIEW_BYTES);
      f.Seek(position);
    } else {
      data := input.data;
    }
    r, tried := DetectorDo(DetectorsAvail(b), opts, data);
  }
}
