/** The multiline text handler and the tree of handlers derived from it, which share the memory
    of their group lists. */
module Handlers {
  import opened Flatten

  /** A handler's own attributes and its groups. A handler is never changed once made. */
  datatype Handler = Handler(attrs: seq<Attr>, groups: Slice)

  /** A log record's own part. */
  datatype Record = Record(time: string, level: string, msg: string, attrs: seq<Attr>)

  function RecordAttrs(r: Record): seq<Attr> {
    [Attr("time", Leaf(r.time)), Attr("level", Leaf(r.level)), Attr("msg", Leaf(r.msg))]
  }

  datatype Step =
    | WithAttrs(parent: nat, attrs: seq<Attr>)
    | WithGroup(parent: nat, name: string)
    | Handle(handler: nat, record: Record)

  /** All handlers made so far, parents before children. */
  class Tree {
    var handlers: seq<Handler>
    ghost var made: seq<seq<string>>  // the groups each handler was made with

    ghost function Backings(): set<object>
      reads this
    {
      set h | h in handlers :: h.groups.backing
    }

    /** Every handler's memory still holds the groups it was made with, and handlers that share a
        backing array see the same part of it. */
    ghost predicate Valid()
      reads this, Backings()
    {
      && |made| == |handlers|
      && (forall i :: 0 <= i < |handlers| ==> Holds(handlers[i].groups, made[i]))
      && forall g, h ::
           g in handlers && h in handlers && g.groups.backing == h.groups.backing ==> g.groups.len == h.groups.len
    }

    static ghost predicate Holds(groups: Slice, view: seq<string>)
      reads groups.backing
    {
      groups.Valid() && groups.View() == view
    }

    constructor ()
      ensures Valid() && fresh(Backings())
      ensures |handlers| == 1 && made == [[]] && handlers[0].attrs == []
    {
      var groups := Make(0);
      handlers := [Handler([], groups)];
      made := [[]];
    }

    method AddWithAttrs(parent: nat, attrs: seq<Attr>)
      requires Valid() && parent < |handlers|
      modifies this
      ensures Valid() && Backings() == old(Backings())
      ensures made == old(made) + [old(made)[parent]]
      ensures handlers == old(handlers) + [Handler(old(handlers)[parent].attrs + attrs, old(handlers)[parent].groups)]
    {
      var h := handlers[parent];
      handlers := handlers + [Handler(h.attrs + attrs, h.groups)];
      made := made + [made[parent]];
    }

    method AddWithGroup(parent: nat, name: string)
      requires Valid() && parent < |handlers|
      modifies this
      ensures Valid() && fresh(Backings() - old(Backings()))
      ensures made == old(made) + [old(made)[parent] + [name]]
      ensures |handlers| == |old(handlers)| + 1 && old(handlers) <= handlers
      ensures handlers[|old(handlers)|].attrs == old(handlers)[parent].attrs
      ensures fresh(handlers[|old(handlers)|].groups.backing)
    {
      var h := handlers[parent];
      var groups := Make(h.groups.len + 1);
      groups := AppendAll(groups, h.groups.backing[..h.groups.len], 0);
      groups := Append(groups, name, 0);
      assert forall g :: g in handlers ==> g.groups.backing != groups.backing;
      handlers := handlers + [Handler(h.attrs, groups)];
      made := made + [made[parent] + [name]];
    }

    /** One line per leaf of the record's own part, the handler's attributes and the record's
        attributes, in order and under the handler's groups; every handler keeps its groups. */
    method Log(i: nat, record: Record, room: nat) returns (lines: seq<Flat>)
      requires Valid() && i < |handlers|
      modifies handlers[i].groups.backing
      ensures Valid()
      ensures lines == Rendered(made[i], LeavesOf(
                         [Attr("time", Leaf(record.time)), Attr("level", Leaf(record.level)),
                          Attr("msg", Leaf(record.msg))] + handlers[i].attrs + record.attrs))
    {
      var h := handlers[i];
      lines := FlattenAttrs(h.groups, RecordAttrs(record) + h.attrs + record.attrs, room);
      forall j | 0 <= j < |handlers| ensures Holds(handlers[j].groups, made[j]) {
        assert handlers[j] in handlers && h in handlers;
        assert old(Holds(handlers[j].groups, made[j]));
      }
    }

    /** Whatever is derived and logged, in whatever order, every handler keeps the groups it was
        made with. */
    method Run(steps: seq<Step>, room: nat)
      requires Valid()
      modifies this, Backings()
      ensures Valid() && old(handlers) <= handlers && old(made) <= made
    {
      for k := 0 to |steps|
        invariant Valid() && old(handlers) <= handlers && old(made) <= made
        invariant fresh(Backings() - old(Backings()))
      {
        match steps[k]
        case WithAttrs(parent, attrs) =>
          if parent < |handlers| {
            AddWithAttrs(parent, attrs);
          }
        case WithGroup(parent, name) =>
          if parent < |handlers| {
            AddWithGroup(parent, name);
          }
        case Handle(i, record) =>
          if i < |handlers| {
            var _ := Log(i, record, room);
          }
      }
    }
  }
}
