/** Folds that may fail. Every streaming operator is specified as such a fold over its tokens,
    and what all of them share -- splitting a call in two changes nothing -- is proved once. */
module Streaming {
  import opened Foundation

  type Step<!S, !X, !Y> = (S, X) -> Option<(S, Y)>

  /** Feeds `xs` one by one through `step`; fails as a whole when one step fails. */
  function Run<S, X, Y>(step: Step<S, X, Y>, s: S, xs: seq<X>): (r: Option<(S, seq<Y>)>)
    ensures r.Some? ==> |r.value.1| == |xs|
  {
    if xs == [] then Some((s, []))
    else
      var last := |xs| - 1;
      match Run(step, s, xs[..last])
      case None => None
      case Some(before) =>
        match step(before.0, xs[last])
        case None => None
        case Some(after) => Some((after.0, before.1 + [after.1]))
  }

  /** Continues a finished run with more input. */
  function Resume<S, X, Y>(step: Step<S, X, Y>, first: Option<(S, seq<Y>)>, xs: seq<X>): Option<(S, seq<Y>)> {
    match first
    case None => None
    case Some(done) =>
      match Run(step, done.0, xs)
      case None => None
      case Some(more) => Some((more.0, done.1 + more.1))
  }

  /** One call over `a + b` is one call over `a` followed by one over `b`, failures included. */
  lemma {:induction false} RunAppend<S, X, Y>(step: Step<S, X, Y>, s: S, a: seq<X>, b: seq<X>)
    ensures Run(step, s, a + b) == Resume(step, Run(step, s, a), b)
    decreases |b|
  {
    if b == [] {
      assert a + b == a;
      if Run(step, s, a).Some? {
        var done := Run(step, s, a).value;
        assert done.1 + [] == done.1;
      }
    } else {
      var last := |b| - 1;
      RunAppend(step, s, a, b[..last]);
      assert (a + b)[..|a + b| - 1] == a + b[..last];
      if Run(step, s, a).Some? {
        var done := Run(step, s, a).value;
        if Run(step, done.0, b[..last]).Some? {
          var more := Run(step, done.0, b[..last]).value;
          if step(more.0, b[last]).Some? {
            var after := step(more.0, b[last]).value;
            assert (done.1 + more.1) + [after.1] == done.1 + (more.1 + [after.1]);
          }
        }
      }
    }
  }

  /** A run that has failed on a prefix has failed. */
  lemma RunFailsOnPrefix<S, X, Y>(step: Step<S, X, Y>, s: S, xs: seq<X>, n: nat)
    requires n <= |xs| && Run(step, s, xs[..n]).None?
    ensures Run(step, s, xs).None?
  {
    RunAppend(step, s, xs[..n], xs[n..]);
    assert xs[..n] + xs[n..] == xs;
  }

  /** The last step of a successful run. */
  lemma RunLast<S, X, Y>(step: Step<S, X, Y>, s: S, xs: seq<X>)
    requires xs != [] && Run(step, s, xs).Some?
    ensures Run(step, s, xs[..|xs| - 1]).Some?
    ensures step(Run(step, s, xs[..|xs| - 1]).value.0, xs[|xs| - 1]) ==
            Some((Run(step, s, xs).value.0, Run(step, s, xs).value.1[|xs| - 1]))
  {
  }

  /** A run of a single input is a single step. */
  lemma RunOne<S, X, Y>(step: Step<S, X, Y>, s: S, x: X)
    ensures Run(step, s, [x]) ==
            match step(s, x) { case None => None case Some(after) => Some((after.0, [after.1])) }
  {
    var none: seq<X> := [];
    assert [x][..|[x]| - 1] == none;
    assert Run(step, s, none) == Some((s, []));
    if step(s, x).Some? {
      var noOutput: seq<Y> := [];
      assert noOutput + [step(s, x).value.1] == [step(s, x).value.1];
    }
  }

  /** A run over one more input. */
  lemma RunOneMore<S, X, Y>(step: Step<S, X, Y>, s: S, xs: seq<X>, x: X)
    ensures Run(step, s, xs + [x]) ==
            match Run(step, s, xs)
            case None => None
            case Some(before) =>
              match step(before.0, x)
              case None => None
              case Some(after) => Some((after.0, before.1 + [after.1]))
  {
    assert (xs + [x])[..|xs + [x]| - 1] == xs;
  }

  /** Applies a kernel without state to every input. */
  function MapAll<X, Y>(f: X -> Option<Y>, xs: seq<X>): (r: Option<seq<Y>>)
    ensures r.Some? ==> |r.value| == |xs|
    ensures r.Some? ==> forall i :: 0 <= i < |xs| ==> f(xs[i]) == Some(r.value[i])
    ensures r.None? ==> exists i :: 0 <= i < |xs| && f(xs[i]).None?
  {
    if xs == [] then Some([])
    else
      var last := |xs| - 1;
      match MapAll(f, xs[..last])
      case None => None
      case Some(ys) =>
        match f(xs[last])
        case None => None
        case Some(y) => Some(ys + [y])
  }

  /** A map over one more input. */
  lemma MapAllOneMore<X, Y>(f: X -> Option<Y>, xs: seq<X>, x: X)
    ensures MapAll(f, xs + [x]) ==
            match MapAll(f, xs)
            case None => None
            case Some(ys) => (match f(x) case None => None case Some(y) => Some(ys + [y]))
  {
    assert (xs + [x])[..|xs + [x]| - 1] == xs;
  }

  /** Two kernels that agree on the inputs map alike. */
  lemma {:induction false} MapAllSame<X, Y>(f: X -> Option<Y>, g: X -> Option<Y>, xs: seq<X>)
    requires forall i :: 0 <= i < |xs| ==> f(xs[i]) == g(xs[i])
    ensures MapAll(f, xs) == MapAll(g, xs)
  {
    if xs != [] {
      MapAllSame(f, g, xs[..|xs| - 1]);
    }
  }

  /** Results found one by one are the result of the map. */
  lemma MapAllIs<X, Y>(f: X -> Option<Y>, xs: seq<X>, ys: seq<Y>)
    requires |ys| == |xs| && forall i :: 0 <= i < |xs| ==> f(xs[i]) == Some(ys[i])
    ensures MapAll(f, xs) == Some(ys)
  {
    assert MapAll(f, xs).Some?;
    assert MapAll(f, xs).value == ys;
  }

  /** Mapping distributes over concatenation when both halves succeed. */
  lemma MapAllAppend<X, Y>(f: X -> Option<Y>, a: seq<X>, b: seq<X>)
    requires MapAll(f, a).Some? && MapAll(f, b).Some?
    ensures MapAll(f, a + b) == Some(MapAll(f, a).value + MapAll(f, b).value)
  {
    var whole := MapAll(f, a + b);
    forall i | 0 <= i < |a + b|
      ensures f((a + b)[i]) == Some((MapAll(f, a).value + MapAll(f, b).value)[i])
    {
      if i < |a| {
        assert (a + b)[i] == a[i];
      } else {
        assert (a + b)[i] == b[i - |a|];
      }
    }
    assert whole.Some?;
    assert whole.value == MapAll(f, a).value + MapAll(f, b).value;
  }

  /** The groups one behind the other. */
  function Flatten<T>(groups: seq<seq<T>>): seq<T> {
    if groups == [] then [] else Flatten(groups[..|groups| - 1]) + groups[|groups| - 1]
  }

  lemma FlattenOneMore<T>(groups: seq<seq<T>>, group: seq<T>)
    ensures Flatten(groups + [group]) == Flatten(groups) + group
  {
    assert (groups + [group])[..|groups + [group]| - 1] == groups;
  }

  lemma {:induction false} FlattenAppend<T>(a: seq<seq<T>>, b: seq<seq<T>>)
    ensures Flatten(a + b) == Flatten(a) + Flatten(b)
    decreases |b|
  {
    if b == [] {
      assert a + b == a;
    } else {
      var last := |b| - 1;
      FlattenAppend(a, b[..last]);
      assert (a + b)[..|a + b| - 1] == a + b[..last];
      assert (Flatten(a) + Flatten(b[..last])) + b[last] == Flatten(a) + (Flatten(b[..last]) + b[last]);
    }
  }
}
