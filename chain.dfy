/** The two-pass filter chain that `Gollum::Markup#render` drives: every filter's
    `extract` in declared order, then every filter's `process` in reverse order,
    each step consuming the previous step's output. A filter that raises aborts
    the pass: nothing after it is called. */
module FilterChain {

  /** What one call of a filter yields: the rewritten text, or the exception it raised. */
  datatype Outcome = Ok(text: string) | Raised(error: string)

  /** A filter bound to one render. Its extraction and processing logic belong
      to the wiki's filter classes and are taken as given. */
  datatype Filter = Filter(name: string, extract: string -> Outcome, process: string -> Outcome)

  datatype Phase = Extract | Process

  /** One observable step of a render: the callback seeing the text, or a call
      of one phase of the filter at position `index` of the chain on `input`. */
  datatype Event = Yielded(input: string) | Call(phase: Phase, index: nat, input: string)

  function Step(ph: Phase, f: Filter, t: string): Outcome
  {
    match ph
    case Extract => f.extract(t)
    case Process => f.process(t)
  }

  /** The left fold of one phase over `fs`, starting from `t`; the first raise ends it. */
  function Pass(ph: Phase, fs: seq<Filter>, t: string): Outcome
    decreases |fs|
  {
    if fs == [] then Ok(t)
    else
      match Step(ph, fs[0], t)
      case Raised(e) => Raised(e)
      case Ok(u) => Pass(ph, fs[1..], u)
  }

  /** The calls one pass makes, in the order it makes them; `ids[k]` is the
      chain position of `fs[k]`. */
  function PassLog(ph: Phase, fs: seq<Filter>, t: string, ids: seq<nat>): (log: seq<Event>)
    requires |ids| == |fs|
    ensures |log| <= |fs|
    decreases |fs|
  {
    if fs == [] then []
    else
      [Call(ph, ids[0], t)] +
      match Step(ph, fs[0], t)
      case Raised(_) => []
      case Ok(u) => PassLog(ph, fs[1..], u, ids[1..])
  }

  /** Positions 0 .. n-1 of a chain of n filters. */
  function Positions(n: nat): (ps: seq<nat>)
    ensures |ps| == n
    ensures forall k :: 0 <= k < n ==> ps[k] == k
  {
    if n == 0 then [] else Positions(n - 1) + [n - 1]
  }

  /** Ruby's `Array#reverse`. */
  function Reversed<T>(s: seq<T>): (r: seq<T>)
    ensures |r| == |s|
    ensures forall j :: 0 <= j < |s| ==> r[j] == s[|s| - 1 - j]
  {
    if s == [] then [] else Reversed(s[1..]) + [s[0]]
  }

  /** Running one more filter after `fs` is running it on what `fs` produced. */
  lemma {:induction false} PassSnoc(ph: Phase, fs: seq<Filter>, f: Filter, t: string)
    ensures Pass(ph, fs + [f], t) ==
      match Pass(ph, fs, t)
      case Raised(e) => Raised(e)
      case Ok(u) => Step(ph, f, u)
    decreases |fs|
  {
    if fs == [] {
      assert fs + [f] == [f];
    } else {
      assert (fs + [f])[0] == fs[0];
      assert (fs + [f])[1..] == fs[1..] + [f];
      match Step(ph, fs[0], t)
      case Raised(e) =>
      case Ok(u) => PassSnoc(ph, fs[1..], f, u);
    }
  }

  /** The call log of a pass extended by one filter gains exactly one call of
      that filter, on the previous output, unless the pass had already raised. */
  lemma {:induction false} PassLogSnoc(ph: Phase, fs: seq<Filter>, f: Filter, t: string, ids: seq<nat>, id: nat)
    requires |ids| == |fs|
    ensures PassLog(ph, fs + [f], t, ids + [id]) ==
      PassLog(ph, fs, t, ids) +
      match Pass(ph, fs, t)
      case Raised(_) => []
      case Ok(u) => [Call(ph, id, u)]
    decreases |fs|
  {
    if fs == [] {
      assert fs + [f] == [f];
      assert ids + [id] == [id];
    } else {
      assert (fs + [f])[0] == fs[0];
      assert (fs + [f])[1..] == fs[1..] + [f];
      assert (ids + [id])[0] == ids[0];
      assert (ids + [id])[1..] == ids[1..] + [id];
      match Step(ph, fs[0], t)
      case Raised(e) =>
      case Ok(u) =>
        PassLogSnoc(ph, fs[1..], f, u, ids[1..], id);
    }
  }

  /** Once a pass has raised, the filters after it are never called and the
      error is the pass's result. */
  lemma {:induction false} PassStopsAtRaise(ph: Phase, fs: seq<Filter>, rest: seq<Filter>, t: string,
                                           ids: seq<nat>, rids: seq<nat>)
    requires |ids| == |fs| && |rids| == |rest|
    requires Pass(ph, fs, t).Raised?
    ensures Pass(ph, fs + rest, t) == Pass(ph, fs, t)
    ensures PassLog(ph, fs + rest, t, ids + rids) == PassLog(ph, fs, t, ids)
    decreases |fs|
  {
    if fs != [] {
      assert (fs + rest)[0] == fs[0];
      assert (fs + rest)[1..] == fs[1..] + rest;
      assert (ids + rids)[0] == ids[0];
      assert (ids + rids)[1..] == ids[1..] + rids;
      match Step(ph, fs[0], t)
      case Raised(e) =>
      case Ok(u) =>
        PassStopsAtRaise(ph, fs[1..], rest, u, ids[1..], rids);
    }
  }

  /** The k-th call of a pass is a call of the k-th filter, on the fold of the
      first k filters, which has not raised. */
  lemma {:induction false} PassLogAt(ph: Phase, fs: seq<Filter>, t: string, ids: seq<nat>, k: nat)
    requires |ids| == |fs|
    requires k < |PassLog(ph, fs, t, ids)|
    ensures k < |fs|
    ensures Pass(ph, fs[..k], t).Ok?
    ensures PassLog(ph, fs, t, ids)[k] == Call(ph, ids[k], Pass(ph, fs[..k], t).text)
    decreases |fs|
  {
    assert fs != [];
    if k == 0 {
      assert fs[..0] == [];
    } else {
      match Step(ph, fs[0], t)
      case Ok(u) =>
        PassLogAt(ph, fs[1..], u, ids[1..], k - 1);
        assert fs[1..][..k - 1] == fs[..k][1..];
    }
  }

  /** How many calls a pass makes: all of its filters when it completes; when
      it raises, the filters up to and including the one that raised, whose
      error is the pass's result. */
  lemma {:induction false} PassLogLength(ph: Phase, fs: seq<Filter>, t: string, ids: seq<nat>)
    requires |ids| == |fs|
    ensures Pass(ph, fs, t).Ok? ==> |PassLog(ph, fs, t, ids)| == |fs|
    ensures Pass(ph, fs, t).Raised? ==>
      var log := PassLog(ph, fs, t, ids);
      && 1 <= |log| <= |fs|
      && Step(ph, fs[|log| - 1], log[|log| - 1].input) == Pass(ph, fs, t)
    decreases |fs|
  {
    if fs != [] {
      match Step(ph, fs[0], t)
      case Raised(e) =>
      case Ok(u) =>
        PassLogLength(ph, fs[1..], u, ids[1..]);
    }
  }

  /** Each filter receives the previous filter's output. */
  lemma PassLogChained(ph: Phase, fs: seq<Filter>, t: string, ids: seq<nat>, k: nat)
    requires |ids| == |fs|
    requires k + 1 < |PassLog(ph, fs, t, ids)|
    ensures Step(ph, fs[k], PassLog(ph, fs, t, ids)[k].input) == Ok(PassLog(ph, fs, t, ids)[k + 1].input)
  {
    PassLogAt(ph, fs, t, ids, k);
    PassLogAt(ph, fs, t, ids, k + 1);
    assert fs[..k + 1] == fs[..k] + [fs[k]];
    PassSnoc(ph, fs[..k], fs[k], t);
  }

  /** Every entry of a pass's log is a call of that phase, the k-th on the
      filter at position `ids[k]`. */
  lemma PassLogCalls(ph: Phase, fs: seq<Filter>, t: string, ids: seq<nat>)
    requires |ids| == |fs|
    ensures forall k :: 0 <= k < |PassLog(ph, fs, t, ids)| ==>
      PassLog(ph, fs, t, ids)[k].Call? && PassLog(ph, fs, t, ids)[k].phase == ph &&
      PassLog(ph, fs, t, ids)[k].index == ids[k]
  {
    forall k | 0 <= k < |PassLog(ph, fs, t, ids)|
      ensures PassLog(ph, fs, t, ids)[k] == Call(ph, ids[k], PassLog(ph, fs, t, ids)[k].input)
    {
      PassLogAt(ph, fs, t, ids, k);
    }
  }

  /** A pass over at least one filter first calls it on the starting text, and
      a pass that completes gets its result from the last filter's call. */
  lemma PassLogEnds(ph: Phase, fs: seq<Filter>, t: string, ids: seq<nat>)
    requires |ids| == |fs| && |fs| > 0
    ensures |PassLog(ph, fs, t, ids)| > 0 && PassLog(ph, fs, t, ids)[0].input == t
    ensures Pass(ph, fs, t).Ok? ==>
      var log := PassLog(ph, fs, t, ids);
      |log| == |fs| && Step(ph, fs[|fs| - 1], log[|fs| - 1].input) == Pass(ph, fs, t)
  {
    PassLogLength(ph, fs, t, ids);
    if Pass(ph, fs, t).Ok? {
      var n := |fs|;
      PassLogAt(ph, fs, t, ids, n - 1);
      assert fs == fs[..n - 1] + [fs[n - 1]];
      PassSnoc(ph, fs[..n - 1], fs[n - 1], t);
    }
  }

  /** One pass of `render`: `data = filter.extract(data)` (or `process`) for
      each filter of `fs` in turn, starting from `t`; an exception a filter
      raises leaves the loop and is the pass's result. The ghost `log` records
      the calls; `ids` gives each filter's position in the chain. */
  method RunPass(ph: Phase, fs: seq<Filter>, t: string, ghost ids: seq<nat>)
    returns (result: Outcome, ghost log: seq<Event>)
    requires |ids| == |fs|
    ensures result == Pass(ph, fs, t)
    ensures log == PassLog(ph, fs, t, ids)
  {
    var data := t;
    log := [];
    var i := 0;
    while i < |fs|
      invariant 0 <= i <= |fs|
      invariant Pass(ph, fs[..i], t) == Ok(data)
      invariant log == PassLog(ph, fs[..i], t, ids[..i])
    {
      assert fs[..i + 1] == fs[..i] + [fs[i]];
      assert ids[..i + 1] == ids[..i] + [ids[i]];
      PassSnoc(ph, fs[..i], fs[i], t);
      PassLogSnoc(ph, fs[..i], fs[i], t, ids[..i], ids[i]);
      log := log + [Call(ph, ids[i], data)];
      var out := match ph case Extract => fs[i].extract(data) case Process => fs[i].process(data);
      if out.Raised? {
        assert fs == fs[..i + 1] + fs[i + 1..];
        assert ids == ids[..i + 1] + ids[i + 1..];
        PassStopsAtRaise(ph, fs[..i + 1], fs[i + 1..], t, ids[..i + 1], ids[i + 1..]);
        result := out;
        return;
      }
      data := out.text;
      i := i + 1;
    }
    assert fs[..i] == fs && ids[..i] == ids;
    result := Ok(data);
  }
}
