/** Flattening nested log attributes to dotted keys, over Go slices that may share memory. */
module Flatten {

  /** An attribute's value: something to print, a group of attributes, or a value that resolves
      to another one when asked (slog.LogValuer). */
  datatype LogValue = Leaf(text: string) | Group(attrs: seq<Attr>) | Valuer(target: LogValue)
  datatype Attr = Attr(key: string, value: LogValue)

  /** A flattened attribute: its full key and what it prints. */
  datatype Flat = Flat(key: string, text: string)

  function Resolve(v: LogValue): (r: LogValue)
    ensures !r.Valuer?
    ensures r == v || r < v
  {
    match v
    case Valuer(target) => Resolve(target)
    case _ => v
  }

  /** strings.Join(parts, "."). */
  function Join(parts: seq<string>): string {
    if parts == [] then "" else if |parts| == 1 then parts[0] else parts[0] + "." + Join(parts[1..])
  }

  lemma JoinOne(part: string)
    ensures Join([part]) == part
  {
    assert |[part]| == 1;
  }

  /** A dot between any two neighbours and nothing else. */
  lemma {:induction false} JoinConcat(a: seq<string>, b: seq<string>)
    requires a != [] && b != []
    ensures Join(a + b) == Join(a) + "." + Join(b)
  {
    if |a| == 1 {
      assert (a + b)[1..] == b;
    } else {
      assert (a + b)[1..] == a[1..] + b;
      JoinConcat(a[1..], b);
    }
  }

  // The meaning of flattening, without slices.

  /** A leaf of an attribute tree with the keys that lead to it. */
  datatype Path = Path(keys: seq<string>, text: string)

  /** The leaves of an attribute, depth first, each with its path from the attribute itself. */
  function Leaves(a: Attr): seq<Path>
    decreases a, 1
  {
    match Resolve(a.value)
    case Leaf(text) => [Path([a.key], text)]
    case Group(attrs) => Under(a.key, LeavesOf(attrs))
  }

  function LeavesOf(attrs: seq<Attr>): seq<Path>
    decreases attrs, 0
  {
    if attrs == [] then [] else Leaves(attrs[0]) + LeavesOf(attrs[1..])
  }

  /** The same leaves seen from one level further up. */
  function Under(key: string, paths: seq<Path>): (r: seq<Path>)
    ensures |r| == |paths|
    ensures forall i :: 0 <= i < |paths| ==> r[i] == Path([key] + paths[i].keys, paths[i].text)
  {
    seq(|paths|, i requires 0 <= i < |paths| => Path([key] + paths[i].keys, paths[i].text))
  }

  /** What to print for leaves found below `groups`. */
  function Rendered(groups: seq<string>, paths: seq<Path>): (r: seq<Flat>)
    ensures |r| == |paths|
    ensures forall i :: 0 <= i < |paths| ==> r[i] == Flat(Join(groups + paths[i].keys), paths[i].text)
  {
    seq(|paths|, i requires 0 <= i < |paths| => Flat(Join(groups + paths[i].keys), paths[i].text))
  }

  lemma RenderedUnder(groups: seq<string>, key: string, paths: seq<Path>)
    ensures Rendered(groups, Under(key, paths)) == Rendered(groups + [key], paths)
  {
    var left, right := Rendered(groups, Under(key, paths)), Rendered(groups + [key], paths);
    forall i | 0 <= i < |paths| ensures left[i] == right[i] {
      assert groups + ([key] + paths[i].keys) == groups + [key] + paths[i].keys;
    }
  }

  lemma RenderedConcat(groups: seq<string>, a: seq<Path>, b: seq<Path>)
    ensures Rendered(groups, a + b) == Rendered(groups, a) + Rendered(groups, b)
  {
  }

  lemma {:induction false} LeafPathsFromKey(a: Attr)
    ensures forall i :: 0 <= i < |Leaves(a)| ==> Leaves(a)[i].keys != [] && Leaves(a)[i].keys[0] == a.key
  {
  }

  /** The key of a flattened leaf is the path of groups to its attribute, a dot, and its own path;
      below no group it is its own path alone. */
  lemma FlattenedKeys(groups: seq<string>, a: Attr, i: nat)
    requires i < |Leaves(a)|
    ensures var own := Join(Leaves(a)[i].keys);
            Rendered(groups, Leaves(a))[i].key == if groups == [] then own else Join(groups) + "." + own
  {
    LeafPathsFromKey(a);
    if groups == [] {
      assert groups + Leaves(a)[i].keys == Leaves(a)[i].keys;
    } else {
      JoinConcat(groups, Leaves(a)[i].keys);
    }
  }

  // Go slices of strings.

  /** The first `len` elements of a backing array; its length is the slice's capacity. Every
      slice in this code starts at the front of its array. */
  datatype Slice = Slice(backing: array<string>, len: nat) {
    ghost predicate Valid() {
      len <= backing.Length
    }

    ghost function View(): seq<string>
      requires Valid()
      reads backing
    {
      backing[..len]
    }
  }

  /** make([]string, 0, capacity) */
  method Make(capacity: nat) returns (s: Slice)
    ensures fresh(s.backing) && s.Valid() && s.len == 0 && s.backing.Length == capacity
  {
    var backing := new string[capacity](_ => "");
    s := Slice(backing, 0);
  }

  /** append: writes into the spare capacity when there is some, and otherwise moves to a new
      array with any room it likes. */
  method Append(s: Slice, x: string, room: nat) returns (t: Slice)
    requires s.Valid()
    modifies s.backing
    ensures t.Valid() && t.len == s.len + 1
    ensures t.View() == old(s.View()) + [x]
    ensures if s.len < s.backing.Length then t.backing == s.backing else fresh(t.backing)
    ensures s.backing[..s.len] == old(s.backing[..s.len])
    ensures s.len == s.backing.Length ==> s.backing[..] == old(s.backing[..])
  {
    if s.len < s.backing.Length {
      s.backing[s.len] := x;
      t := Slice(s.backing, s.len + 1);
    } else {
      var bigger := new string[s.len + 1 + room](_ => "");
      for i := 0 to s.len
        invariant bigger[..i] == s.backing[..i]
        invariant s.backing[..] == old(s.backing[..])
      {
        bigger[i] := s.backing[i];
      }
      bigger[s.len] := x;
      t := Slice(bigger, s.len + 1);
    }
  }

  /** Appends all of `xs` in order. */
  method AppendAll(s: Slice, xs: seq<string>, room: nat) returns (t: Slice)
    requires s.Valid() && s.len + |xs| <= s.backing.Length
    modifies s.backing
    ensures t.Valid() && t.backing == s.backing && t.len == s.len + |xs|
    ensures t.View() == old(s.View()) + xs
  {
    t := s;
    for i := 0 to |xs|
      invariant t.Valid() && t.backing == s.backing && t.len == s.len + i
      invariant t.View() == old(s.View()) + xs[..i]
    {
      t := Append(t, xs[i], room);
    }
  }

  // The flattening methods. Each may scribble past the end of the slice it is given, never
  // inside it.

  method FlattenAttrs(groups: Slice, attrs: seq<Attr>, room: nat) returns (flattened: seq<Flat>)
    requires groups.Valid()
    modifies groups.backing
    ensures groups.backing[..groups.len] == old(groups.backing[..groups.len])
    ensures groups.len == groups.backing.Length ==> groups.backing[..] == old(groups.backing[..])
    ensures flattened == Rendered(old(groups.View()), LeavesOf(attrs))
    decreases attrs, 0
  {
    hide Leaves, Rendered;
    ghost var path := groups.View();
    flattened := [];
    for i := 0 to |attrs|
      invariant groups.backing[..groups.len] == path
      invariant groups.len == groups.backing.Length ==> groups.backing[..] == old(groups.backing[..])
      invariant flattened + Rendered(path, LeavesOf(attrs[i..])) == Rendered(path, LeavesOf(attrs))
    {
      var more := FlattenAttr(groups, attrs[i], room);
      assert attrs[i..][1..] == attrs[i + 1..];
      RenderedConcat(path, Leaves(attrs[i]), LeavesOf(attrs[i + 1..]));
      flattened := flattened + more;
    }
  }

  method FlattenAttr(groups: Slice, a: Attr, room: nat) returns (flattened: seq<Flat>)
    requires groups.Valid()
    modifies groups.backing
    ensures groups.backing[..groups.len] == old(groups.backing[..groups.len])
    ensures groups.len == groups.backing.Length ==> groups.backing[..] == old(groups.backing[..])
    ensures flattened == Rendered(old(groups.View()), Leaves(a))
    decreases a, 1
  {
    ghost var path := groups.View();
    var value := Resolve(a.value);
    var parts := Append(groups, a.key, room);
    var key := Join(parts.backing[..parts.len]);
    assert Leaves(a) == if value.Leaf? then [Path([a.key], value.text)] else Under(a.key, LeavesOf(value.attrs));
    hide Leaves, Under, Rendered, Join;
    if value.Leaf? {
      return [Flat(key, value.text)];
    }
    var attrs := value.attrs;
    flattened := [];
    RenderedUnder(path, a.key, LeavesOf(attrs));
    for i := 0 to |attrs|
      invariant groups.backing[..groups.len] == path
      invariant groups.len == groups.backing.Length ==> groups.backing[..] == old(groups.backing[..])
      invariant flattened + Rendered(path + [a.key], LeavesOf(attrs[i..])) == Rendered(path, Leaves(a))
    {
      var inner := Append(groups, a.key, room);
      var more := FlattenAttr(inner, attrs[i], room);
      assert attrs[i..][1..] == attrs[i + 1..];
      RenderedConcat(path + [a.key], Leaves(attrs[i]), LeavesOf(attrs[i + 1..]));
      flattened := flattened + more;
    }
  }
}
