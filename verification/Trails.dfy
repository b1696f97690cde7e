/** Which leaves flattening prints, in which order and under which keys, said by position: a leaf
    is reached by following indices down through the groups. */
module Trails {
  import opened Flatten

  function Deferred(v: LogValue, times: nat): LogValue {
    if times == 0 then v else Valuer(Deferred(v, times - 1))
  }

  /** Resolving asks as often as it takes to get something that is not to be asked. */
  lemma ResolveIff(v: LogValue, r: LogValue)
    ensures Resolve(v) == r <==> !r.Valuer? && exists times: nat :: v == Deferred(r, times)
  {
    if Resolve(v) == r {
      var times := TimesDeferred(v);
    }
    if !r.Valuer? && exists times: nat :: v == Deferred(r, times) {
      var times: nat :| v == Deferred(r, times);
      ResolveDeferred(r, times);
    }
  }

  lemma {:induction false} TimesDeferred(v: LogValue) returns (times: nat)
    ensures v == Deferred(Resolve(v), times)
  {
    match v
    case Valuer(target) =>
      times := TimesDeferred(target);
      times := times + 1;
    case _ => times := 0;
  }

  lemma {:induction false} ResolveDeferred(v: LogValue, times: nat)
    requires !v.Valuer?
    ensures Resolve(Deferred(v, times)) == v
  {
    if times == 0 {
    } else {
      ResolveDeferred(v, times - 1);
    }
  }

  /** A way down to a leaf: the indices followed, the attributes found there and the leaf's text. */
  datatype Trail = Trail(pos: seq<nat>, chain: seq<Attr>, text: string) {
    function Keys(): seq<string> {
      seq(|chain|, i requires 0 <= i < |chain| => chain[i].key)
    }
  }

  /** Attribute `a` is at index `k` of the group that `v` resolves to. */
  predicate Member(v: LogValue, k: nat, a: Attr) {
    var r := Resolve(v);
    r.Group? && k < |r.attrs| && a == r.attrs[k]
  }

  /** The trail starts at one of `attrs`, every attribute on it is a member of the one before, and
      the last one resolves to the leaf. */
  ghost predicate Leads(attrs: seq<Attr>, t: Trail) {
    && 1 <= |t.pos| == |t.chain|
    && t.pos[0] < |attrs| && t.chain[0] == attrs[t.pos[0]]
    && (forall i :: 1 <= i < |t.pos| ==> Member(t.chain[i - 1].value, t.pos[i], t.chain[i]))
    && Resolve(t.chain[|t.chain| - 1].value) == Leaf(t.text)
  }

  /** Lexicographic order of positions. */
  ghost predicate Before(p: seq<nat>, q: seq<nat>) {
    exists n: nat :: n < |p| && n < |q| && p[..n] == q[..n] && p[n] < q[n]
  }

  // All trails in the order of their leaves.

  function Step(k: nat, a: Attr, t: Trail): Trail {
    Trail([k] + t.pos, [a] + t.chain, t.text)
  }

  function Deeper(k: nat, a: Attr, trails: seq<Trail>): (r: seq<Trail>)
    ensures |r| == |trails|
    ensures forall i :: 0 <= i < |trails| ==> r[i] == Step(k, a, trails[i])
  {
    seq(|trails|, i requires 0 <= i < |trails| => Step(k, a, trails[i]))
  }

  function TrailsAt(attrs: seq<Attr>, k: nat): seq<Trail>
    requires k < |attrs|
    decreases attrs, |attrs| - k, 0
  {
    match Resolve(attrs[k].value)
    case Leaf(text) => [Trail([k], [attrs[k]], text)]
    case Group(inner) => Deeper(k, attrs[k], TrailsFrom(inner, 0))
  }

  function TrailsFrom(attrs: seq<Attr>, k: nat): seq<Trail>
    requires k <= |attrs|
    decreases attrs, |attrs| - k, 1
  {
    if k == |attrs| then [] else TrailsAt(attrs, k) + TrailsFrom(attrs, k + 1)
  }

  /** Following a trail is one step and then a trail inside the group. */
  lemma LeadsStep(attrs: seq<Attr>, k: nat, t: Trail)
    requires k < |attrs| && Resolve(attrs[k].value).Group?
    ensures Leads(attrs, Step(k, attrs[k], t)) <==> Leads(Resolve(attrs[k].value).attrs, t)
  {
    var inner, s := Resolve(attrs[k].value).attrs, Step(k, attrs[k], t);
    if Leads(inner, t) {
      forall i | 1 <= i < |s.pos| ensures Member(s.chain[i - 1].value, s.pos[i], s.chain[i]) {
        assert i > 1 ==> Member(t.chain[i - 2].value, t.pos[i - 1], t.chain[i - 1]);
      }
    }
    if Leads(attrs, s) {
      assert |s.pos| > 1;
      forall i | 1 <= i < |t.pos| ensures Member(t.chain[i - 1].value, t.pos[i], t.chain[i]) {
        assert Member(s.chain[i].value, s.pos[i + 1], s.chain[i + 1]);
      }
      assert Member(s.chain[0].value, s.pos[1], s.chain[1]);
    }
  }

  lemma {:induction false} TrailsLead(attrs: seq<Attr>, k: nat, t: Trail)
    requires k <= |attrs| && t in TrailsFrom(attrs, k)
    ensures Leads(attrs, t) && t.pos[0] >= k
    decreases attrs, |attrs| - k
  {
    if t in TrailsAt(attrs, k) {
      match Resolve(attrs[k].value)
      case Leaf(_) =>
      case Group(inner) =>
        var i :| 0 <= i < |TrailsFrom(inner, 0)| && t == Step(k, attrs[k], TrailsFrom(inner, 0)[i]);
        TrailsLead(inner, 0, TrailsFrom(inner, 0)[i]);
        LeadsStep(attrs, k, TrailsFrom(inner, 0)[i]);
    } else {
      TrailsLead(attrs, k + 1, t);
    }
  }

  lemma {:induction false} TrailsAll(attrs: seq<Attr>, k: nat, t: Trail)
    requires k <= |attrs| && Leads(attrs, t) && t.pos[0] >= k
    ensures t in TrailsFrom(attrs, k)
    decreases attrs, |attrs| - k
  {
    if t.pos[0] > k {
      TrailsAll(attrs, k + 1, t);
    } else {
      match Resolve(attrs[k].value)
      case Leaf(_) =>
        assert |t.pos| > 1 ==> Member(t.chain[0].value, t.pos[1], t.chain[1]);
        assert t == Trail([k], [attrs[k]], t.text);
      case Group(inner) =>
        var rest := Trail(t.pos[1..], t.chain[1..], t.text);
        assert t == Step(k, attrs[k], rest);
        LeadsStep(attrs, k, rest);
        TrailsAll(inner, 0, rest);
        var i :| 0 <= i < |TrailsFrom(inner, 0)| && rest == TrailsFrom(inner, 0)[i];
        assert t == TrailsAt(attrs, k)[i];
    }
  }

  lemma {:induction false} TrailsOrdered(attrs: seq<Attr>, k: nat, i: nat, j: nat)
    requires k <= |attrs| && i < j < |TrailsFrom(attrs, k)|
    ensures Before(TrailsFrom(attrs, k)[i].pos, TrailsFrom(attrs, k)[j].pos)
    decreases attrs, |attrs| - k
  {
    var here, later := TrailsAt(attrs, k), TrailsFrom(attrs, k + 1);
    if i >= |here| {
      TrailsOrdered(attrs, k + 1, i - |here|, j - |here|);
    } else if j >= |here| {
      var p, q := here[i].pos, later[j - |here|].pos;
      TrailsLead(attrs, k + 1, later[j - |here|]);
      assert p[..0] == q[..0] && p[0] < q[0];
    } else {
      var inner := Resolve(attrs[k].value).attrs;
      TrailsOrdered(inner, 0, i, j);
      BeforeStep(k, TrailsFrom(inner, 0)[i].pos, TrailsFrom(inner, 0)[j].pos);
    }
  }

  lemma BeforeStep(k: nat, p: seq<nat>, q: seq<nat>)
    requires Before(p, q)
    ensures Before([k] + p, [k] + q)
  {
    var n: nat :| n < |p| && n < |q| && p[..n] == q[..n] && p[n] < q[n];
    assert ([k] + p)[..n + 1] == [k] + p[..n] && ([k] + q)[..n + 1] == [k] + q[..n];
  }

  lemma {:induction false} TrailsAreLeaves(attrs: seq<Attr>, k: nat)
    requires k <= |attrs|
    ensures |TrailsFrom(attrs, k)| == |LeavesOf(attrs[k..])|
    ensures forall i :: 0 <= i < |TrailsFrom(attrs, k)| ==>
              var t := TrailsFrom(attrs, k)[i];
              LeavesOf(attrs[k..])[i] == Path(t.Keys(), t.text)
    decreases attrs, |attrs| - k
  {
    if k == |attrs| {
    } else {
      TrailsAreLeaves(attrs, k + 1);
      assert attrs[k..][1..] == attrs[k + 1..];
      match Resolve(attrs[k].value)
      case Leaf(_) => assert TrailsAt(attrs, k)[0].Keys() == [attrs[k].key];
      case Group(inner) =>
        TrailsAreLeaves(inner, 0);
        assert inner[0..] == inner;
        forall i | 0 <= i < |TrailsFrom(inner, 0)|
          ensures TrailsAt(attrs, k)[i].Keys() == [attrs[k].key] + TrailsFrom(inner, 0)[i].Keys()
        {
        }
    }
  }

  /** Flattening prints exactly the leaves that can be reached, once each, in the order of their
      positions: each under the dotted keys of the groups it was called with and of the attributes
      on its trail, with its own text. */
  lemma FlattenedInOrder(groups: seq<string>, attrs: seq<Attr>) returns (trails: seq<Trail>)
    ensures forall t :: t in trails <==> Leads(attrs, t)
    ensures forall i, j :: 0 <= i < j < |trails| ==> Before(trails[i].pos, trails[j].pos)
    ensures var flattened := Rendered(groups, LeavesOf(attrs));
            && |flattened| == |trails|
            && forall i :: 0 <= i < |trails| ==>
                 flattened[i] == Flat(Join(groups + trails[i].Keys()), trails[i].text)
  {
    hide TrailsFrom, Before, LeavesOf, Join;
    trails := TrailsFrom(attrs, 0);
    TrailsAreLeaves(attrs, 0);
    assert attrs[0..] == attrs;
    forall t | t in trails ensures Leads(attrs, t) {
      TrailsLead(attrs, 0, t);
    }
    forall t | Leads(attrs, t) ensures t in trails {
      TrailsAll(attrs, 0, t);
    }
    forall i, j | 0 <= i < j < |trails| ensures Before(trails[i].pos, trails[j].pos) {
      TrailsOrdered(attrs, 0, i, j);
    }
  }
}
