/** What journals record. */
module Entries {
  import opened Clocks

  datatype Option<+T> = None | Some(value: T)

  /** An amount booked by author `id`; a non-empty `alters` names the stamp it replaces. */
  datatype Data = Data(id: Id, value: int, alters: Clock)

  /** A record together with the stamp its author gave it. */
  datatype Entry = Entry(clock: Clock, data: Data)

  /** The position of an entry among its author's entries. */
  function Seq(e: Entry): Time { At(e.clock, e.data.id) }

  predicate HasStamp(list: seq<Entry>, c: Clock) {
    exists i | 0 <= i < |list| :: list[i].clock == c
  }

  /** The entries of one author, in list order. */
  function ByAuthor(list: seq<Entry>, a: Id): seq<Entry> {
    if list == [] then []
    else if list[0].data.id == a then [list[0]] + ByAuthor(list[1..], a)
    else ByAuthor(list[1..], a)
  }

  lemma {:induction false} ByAuthorMembers(list: seq<Entry>, a: Id)
    ensures forall e :: e in ByAuthor(list, a) <==> e in list && e.data.id == a
  {
    if list != [] {
      ByAuthorMembers(list[1..], a);
      assert forall e :: e in list <==> e == list[0] || e in list[1..];
    }
  }

  lemma {:induction false} ByAuthorConcat(l1: seq<Entry>, l2: seq<Entry>, a: Id)
    ensures ByAuthor(l1 + l2, a) == ByAuthor(l1, a) + ByAuthor(l2, a)
  {
    if l1 == [] {
      assert l1 + l2 == l2;
    } else {
      assert (l1 + l2)[0] == l1[0] && (l1 + l2)[1..] == l1[1..] + l2;
      ByAuthorConcat(l1[1..], l2, a);
    }
  }

  lemma ByAuthorAppend(saved: seq<Entry>, e: Entry, a: Id)
    ensures ByAuthor(saved + [e], a) == ByAuthor(saved, a) + (if e.data.id == a then [e] else [])
  {
    ByAuthorConcat(saved, [e], a);
    assert [e][1..] == [];
  }
}
