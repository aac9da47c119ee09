/**
 * Properties of the encoding orchestration in DetectEncoding, stated over an
 * arbitrary registry `all` in declaration order (the library's own registry is
 * DetectorsAll(b), with three entries).
 */
module EncodingProperties {
  import opened Wrappers
  import opened RubyIO
  import opened DetectEncoding

  /** When every detector is present, the present positions below `n` are just 0, 1, ..., n - 1. */
  lemma {:induction false} PresentPositionsAllPresent(ds: seq<Detector>, n: nat)
    requires n <= |ds|
    requires forall i :: 0 <= i < |ds| ==> ds[i].present
    ensures |PresentPositions(ds, n)| == n
    ensures forall t :: 0 <= t < n ==> PresentPositions(ds, n)[t] == t
  {
    if n > 0 {
      PresentPositionsAllPresent(ds, n - 1);
    }
  }

  /**
   * The available list holds exactly the present detectors of `all`, each
   * once, in declaration order: its t-th entry is `all[P[t]]` for strictly
   * increasing positions P that run over every present detector.
   */
  lemma {:induction false} AvailableInDeclarationOrder(all: seq<Detector>)
    ensures var p := PresentPositions(all, |all|);
      && |SelectPresent(all)| == |p|
      && (forall t :: 0 <= t < |p| ==> p[t] < |all| && SelectPresent(all)[t] == all[p[t]])
      && (forall t, u :: 0 <= t < u < |p| ==> p[t] < p[u])
      && (forall q :: 0 <= q < |all| ==> (all[q].present <==> q in p))
  {
  }

  /**
   * The `if detector.present?` inside the loop of `detector_do` filters
   * nothing out: selecting the present detectors of the available list
   * gives the available list back.
   */
  lemma {:induction false} RedundantPresentCheck(all: seq<Detector>)
    ensures SelectPresent(SelectPresent(all)) == SelectPresent(all)
  {
    var avail := SelectPresent(all);
    PresentPositionsAllPresent(avail, |avail|);
  }

  /**
   * A search over the available list, read back on `all`: the detector it
   * finds is the first PRESENT detector of `all` matching `w`, and it finds
   * none exactly when no present detector of `all` matches.
   */
  lemma {:induction false} FirstMatchOfAvailable(all: seq<Detector>, w: Wanted)
    ensures
      var p := PresentPositions(all, |all|);
      var j := FirstMatch(SelectPresent(all), w);
      && |SelectPresent(all)| == |p|
      && (j < |p| ==>
            && p[j] < |all|
            && Matches(w, all[p[j]])
            && forall q :: 0 <= q < p[j] && all[q].present ==> !Matches(w, all[q]))
      && (j == |p| ==> forall q :: 0 <= q < |all| && all[q].present ==> !Matches(w, all[q]))
  {
    var p := PresentPositions(all, |all|);
    var avail := SelectPresent(all);
    var j := FirstMatch(avail, w);
    forall q | 0 <= q < |all| && all[q].present && (j < |p| ==> q < p[j])
      ensures !Matches(w, all[q])
    {
      var t :| 0 <= t < |p| && p[t] == q;
      assert avail[t] == all[q];
    }
  }

  /**
   * For an Accepting search, which only present detectors can satisfy, the
   * first match in the available list is the first match in `all`.
   */
  lemma {:induction false} WinnerPosition(all: seq<Detector>, w: Wanted)
    requires w.Accepting?
    ensures
      var p := PresentPositions(all, |all|);
      var j := FirstMatch(SelectPresent(all), w);
      var k := FirstMatch(all, w);
      && |SelectPresent(all)| == |p|
      && (j < |p| ==> k == p[j])
      && (j == |p| ==> k == |all|)
  {
    FirstMatchOfAvailable(all, w);
  }

  /**
   * Short-circuit, without `:method`: the outcome is the answer of the first
   * detector of `all`, in declaration order, that is available and answers;
   * when none does, `encoding` returns the available array itself, not nil.
   */
  lemma {:induction false} ShortCircuit(all: seq<Detector>, opts: Options, data: Data)
    requires !Truthy(Lookup(opts, METHOD_KEY))
    ensures
      var k := FirstMatch(all, Accepting(data, opts));
      Result(SelectPresent(all), opts, data) ==
        if k < |all| then Found(all[k].detect(data, opts).value)
        else DetectorArray(Names(SelectPresent(all)))
  {
    var w := Accepting(data, opts);
    var p := PresentPositions(all, |all|);
    var avail := SelectPresent(all);
    var j := FirstMatch(avail, w);
    WinnerPosition(all, w);
    if j < |avail| {
      var d := avail[j];
      assert d == all[p[j]];
      assert Result(avail, opts, data) == Found(d.detect(data, opts).value);
    }
  }

  /**
   * Without `:method`, the detectors invoked are the first entries of the
   * available list, up to and including the one that answers (all of them
   * when none answers), each once and in list order.
   */
  lemma {:induction false} InvokedPrefix(avail: seq<Detector>, opts: Options, data: Data)
    requires !Truthy(Lookup(opts, METHOD_KEY))
    requires forall i :: 0 <= i < |avail| ==> avail[i].present
    ensures
      var j := FirstMatch(avail, Accepting(data, opts));
      var tried := Invoked(avail, opts, data);
      && |tried| == (if j < |avail| then j + 1 else |avail|)
      && forall t :: 0 <= t < |tried| ==> tried[t] == t
  {
    var j := FirstMatch(avail, Accepting(data, opts));
    PresentPositionsAllPresent(avail, if j < |avail| then j + 1 else |avail|);
  }

  /**
   * Which detectors are invoked without `:method`, read on `all`: the t-th
   * call goes to the t-th available detector, `all[p[t]]`, so calls follow
   * declaration order, touch only available detectors, each once; every
   * available detector up to the one that answers is called, and none after it.
   */
  lemma {:induction false} ShortCircuitInvocations(all: seq<Detector>, opts: Options, data: Data)
    requires !Truthy(Lookup(opts, METHOD_KEY))
    ensures
      var p := PresentPositions(all, |all|);
      var k := FirstMatch(all, Accepting(data, opts));
      var tried := Invoked(SelectPresent(all), opts, data);
      && |tried| <= |p|
      && (forall t :: 0 <= t < |tried| ==> tried[t] == t && p[t] <= k)
      && (forall q :: 0 <= q < |all| && q <= k && all[q].present ==>
            exists t :: 0 <= t < |tried| && p[t] == q)
  {
    var w := Accepting(data, opts);
    var p := PresentPositions(all, |all|);
    var avail := SelectPresent(all);
    var j := FirstMatch(avail, w);
    var k := FirstMatch(all, w);
    var tried := Invoked(avail, opts, data);
    InvokedPrefix(avail, opts, data);
    WinnerPosition(all, w);
    forall t | 0 <= t < |tried|
      ensures p[t] <= k
    {
      if j < |avail| && t < j { assert p[t] < p[j]; }
    }
    forall q | 0 <= q < |all| && q <= k && all[q].present
      ensures exists t :: 0 <= t < |tried| && p[t] == q
    {
      var t :| 0 <= t < |p| && p[t] == q;
      assert t < |tried|;
    }
  }

  /**
   * With `:method` naming an available detector, only the first available
   * detector of that name (in declaration order) is invoked, and the outcome
   * is its answer, or nil when it declines.
   */
  lemma {:induction false} MethodRestriction(all: seq<Detector>, opts: Options, data: Data, m: string)
    requires Lookup(opts, METHOD_KEY) == Str(m)
    requires exists q :: 0 <= q < |all| && all[q].present && all[q].requireName == m
    ensures
      var p := PresentPositions(all, |all|);
      var i := FirstMatch(SelectPresent(all), NamedAs(Str(m)));
      && i < |p|
      && Invoked(SelectPresent(all), opts, data) == [i]
      && p[i] < |all|
      && all[p[i]].present
      && all[p[i]].requireName == m
      && (forall q :: 0 <= q < p[i] && all[q].present ==> all[q].requireName != m)
      && Result(SelectPresent(all), opts, data) ==
           match all[p[i]].detect(data, opts)
           case Some(e) => Found(e)
           case None => NilResult
  {
    var w := NamedAs(Str(m));
    var p := PresentPositions(all, |all|);
    var avail := SelectPresent(all);
    var i := FirstMatch(avail, w);
    FirstMatchOfAvailable(all, w);
    var q :| 0 <= q < |all| && all[q].present && all[q].requireName == m;
    assert Matches(w, all[q]);
    var d := avail[i];
    assert d == all[p[i]];
    assert Result(avail, opts, data) ==
      match d.detect(data, opts) case Some(e) => Found(e) case None => NilResult;
  }

  /**
   * With a truthy `:method`, `encoding` ends in NoMethodError (on `nil`)
   * exactly when no available detector is named by it, and then no detector
   * is invoked. A `:method` that is not a String (a Symbol, say) never names one.
   */
  lemma {:induction false} UnknownMethod(all: seq<Detector>, opts: Options, data: Data)
    requires Truthy(Lookup(opts, METHOD_KEY))
    ensures
      var v := Lookup(opts, METHOD_KEY);
      Result(SelectPresent(all), opts, data) == NoMethodError <==>
        forall q :: 0 <= q < |all| && all[q].present ==> v != Str(all[q].requireName)
    ensures Result(SelectPresent(all), opts, data) == NoMethodError ==>
      Invoked(SelectPresent(all), opts, data) == []
    ensures !Lookup(opts, METHOD_KEY).Str? ==> Result(SelectPresent(all), opts, data) == NoMethodError
  {
    FirstMatchOfAvailable(all, NamedAs(Lookup(opts, METHOD_KEY)));
  }

  /** Leaving `:confidence` out is the same as passing the default 0.6 explicitly. */
  lemma {:induction false} DefaultConfidence(options: Options)
    requires CONFIDENCE_KEY !in options
    ensures OptionsWithDefault(options) == OptionsWithDefault(options[CONFIDENCE_KEY := Num(CONFIDENCE)])
  {
  }

  /**
   * `encoding_methods_all` names the three backends in declaration order;
   * `encoding_methods` is the order-preserving subsequence of it made of the
   * available backends, without duplicates when the backend names are distinct.
   */
  lemma {:induction false} EncodingMethodsSubsequence(b: Backends)
    ensures EncodingMethodsAll(b) == [b.holmes.requireName, b.rchardet.requireName, b.uchardet.requireName]
    ensures
      var p := PresentPositions(DetectorsAll(b), 3);
      && |EncodingMethods(b)| == |p|
      && (forall t :: 0 <= t < |p| ==> p[t] < 3 && EncodingMethods(b)[t] == EncodingMethodsAll(b)[p[t]])
      && (forall t, u :: 0 <= t < u < |p| ==> p[t] < p[u])
      && (forall q :: 0 <= q < 3 ==> (DetectorsAll(b)[q].present <==> q in p))
    ensures
      (forall x, y :: 0 <= x < y < 3 ==> EncodingMethodsAll(b)[x] != EncodingMethodsAll(b)[y]) ==>
      (forall x, y :: 0 <= x < y < |EncodingMethods(b)| ==> EncodingMethods(b)[x] != EncodingMethods(b)[y])
  {
    var all := DetectorsAll(b);
    var p := PresentPositions(all, 3);
    var avail := SelectPresent(all);
    AvailableInDeclarationOrder(all);
    var methods, methodsAll := EncodingMethods(b), EncodingMethodsAll(b);
    assert |methods| == |p|;
    forall t | 0 <= t < |p|
      ensures methods[t] == methodsAll[p[t]]
    {
      assert avail[t] == all[p[t]];
    }
  }
}
