/**
 * The list operations the form builder applies to `formSchema.fields`: insert a new
 * field at a gap, delete by id (`filter`), save by id (`map`), duplicate after the
 * original, and the drag-and-drop reorder (`splice` out, then `splice` in).
 */
module SchemaOps {
  import opened Arrays
  import opened Schema

  function HasId(id: string): Field -> bool
  {
    (f: Field) => f.id == id
  }

  function NotId(id: string): Field -> bool
  {
    (f: Field) => f.id != id
  }

  /** `fields.findIndex(f => f.id === id)`. */
  function IndexOf(fields: seq<Field>, id: string): (k: int)
    ensures -1 <= k < |fields|
    ensures k == -1 <==> !Present(fields, id)
    ensures k != -1 ==> fields[k].id == id && forall j :: 0 <= j < k ==> fields[j].id != id
  {
    var k := FindIndex(fields, HasId(id));
    assert k != -1 ==> HasId(id)(fields[k]);
    assert k == -1 ==> forall i :: 0 <= i < |fields| ==> !HasId(id)(fields[i]);
    k
  }

  // ---------------------------------------------------------------- insert

  /** A field whose id is new keeps the ids of the sequence it is spliced into distinct. */
  lemma InsertKeepsUniqueIds(fields: seq<Field>, index: nat, f: Field)
    requires UniqueIds(fields) && !Present(fields, f.id)
    ensures UniqueIds(InsertAt(fields, index, f))
  {
    var r := InsertAt(fields, index, f);
    var c := Clamp(index, |fields|);
    forall i, j | 0 <= i < j < |r| ensures r[i].id != r[j].id {
      if i != c && j != c {
        var i', j' := (if i < c then i else i - 1), (if j < c then j else j - 1);
        assert r[i] == fields[i'] && r[j] == fields[j'];
      } else if i == c {
        assert r[j] == fields[j - 1];
      } else {
        assert r[i] == fields[if i < c then i else i - 1];
      }
    }
  }

  lemma RemoveAtKeepsUniqueIds(fields: seq<Field>, k: nat)
    requires UniqueIds(fields) && k < |fields|
    ensures UniqueIds(RemoveAt(fields, k))
    ensures !Present(RemoveAt(fields, k), fields[k].id)
  {
    var r := RemoveAt(fields, k);
    assert forall i :: 0 <= i < |r| ==> r[i] == fields[if i < k then i else i + 1];
  }

  // ---------------------------------------------------------------- delete

  /** The delete action: `fields.filter(f => f.id !== id)`. */
  function Remove(fields: seq<Field>, id: string): (r: seq<Field>)
    ensures |r| <= |fields|
    ensures !Present(r, id)
  {
    var r := Filter(fields, NotId(id));
    assert forall i :: 0 <= i < |r| ==> NotId(id)(r[i]);
    r
  }

  /** Deleting keeps every field with another id, and only those. */
  lemma RemoveKeepsOthers(fields: seq<Field>, id: string, f: Field)
    ensures f in Remove(fields, id) <==> f in fields && f.id != id
  {
    FilterMembers(fields, NotId(id), f);
  }

  /** Deleting an id that no field carries leaves the sequence as it is. */
  lemma RemoveAbsent(fields: seq<Field>, id: string)
    requires !Present(fields, id)
    ensures Remove(fields, id) == fields
  {
    FilterKeepsAll(fields, NotId(id));
  }

  /** With distinct ids, deleting the id at position k removes exactly that field. */
  lemma RemovePresent(fields: seq<Field>, k: nat)
    requires UniqueIds(fields) && k < |fields|
    ensures Remove(fields, fields[k].id) == RemoveAt(fields, k)
  {
    var p := NotId(fields[k].id);
    var a, b := fields[..k], fields[k + 1..];
    assert fields == a + [fields[k]] + b;
    assert forall i :: 0 <= i < |a| ==> p(a[i]) by {
      forall i | 0 <= i < |a| ensures p(a[i]) { assert a[i] == fields[i]; }
    }
    assert forall i :: 0 <= i < |b| ==> p(b[i]) by {
      forall i | 0 <= i < |b| ensures p(b[i]) { assert b[i] == fields[k + 1 + i]; }
    }
    FilterDropsOne(a, fields[k], b, p);
  }

  /** Deleting preserves distinct ids and removes the id from the sequence. */
  lemma RemoveKeepsUniqueIds(fields: seq<Field>, id: string)
    requires UniqueIds(fields)
    ensures UniqueIds(Remove(fields, id))
  {
    var k := IndexOf(fields, id);
    if k == -1 {
      RemoveAbsent(fields, id);
    } else {
      RemovePresent(fields, k);
      RemoveAtKeepsUniqueIds(fields, k);
    }
  }

  // ---------------------------------------------------------------- duplicate

  /** The copy made by the duplicate action: a new id and `name + "_copy"`. */
  function Copy(f: Field, newId: string): Field
  {
    f.(id := newId, name := f.name + "_copy")
  }

  /** The copy agrees with its original on every key but the name. */
  lemma CopyAttributes(f: Field, newId: string)
    ensures Copy(f, newId).id == newId && Copy(f, newId).kind == f.kind
    ensures Get(Copy(f, newId), Name) == StrValue(f.name + "_copy")
    ensures forall a :: a != Name ==> Get(Copy(f, newId), a) == Get(f, a)
  {
  }

  /**
   * The duplicate action: the copy goes right after the first field with the id
   * (`splice(fieldIndex + 1, 0, copy)`). With an id no field carries the source
   * reads `name` of `undefined` and throws, so the id must be present.
   */
  function Duplicate(fields: seq<Field>, id: string, newId: string): (r: seq<Field>)
    requires Present(fields, id)
    ensures var k := IndexOf(fields, id);
      && |r| == |fields| + 1
      && r[k + 1] == Copy(fields[k], newId)
      && r[..k + 1] == fields[..k + 1]
      && r[k + 2..] == fields[k + 1..]
  {
    var k := IndexOf(fields, id);
    var r := InsertAt(fields, k + 1, Copy(fields[k], newId));
    assert r[..k + 1] == fields[..k + 1];
    assert r[k + 2..] == fields[k + 1..];
    r
  }

  /** Deleting a fresh copy right after making it restores the sequence exactly. */
  lemma DuplicateThenRemove(fields: seq<Field>, id: string, newId: string)
    requires Present(fields, id) && !Present(fields, newId)
    ensures Remove(Duplicate(fields, id, newId), newId) == fields
  {
    var p := NotId(newId);
    var k := IndexOf(fields, id);
    var c := Copy(fields[k], newId);
    var a, b := fields[..k + 1], fields[k + 1..];
    assert Duplicate(fields, id, newId) == a + [c] + b;
    assert forall i :: 0 <= i < |a| ==> p(a[i]) by {
      forall i | 0 <= i < |a| ensures p(a[i]) { assert a[i] == fields[i]; }
    }
    assert forall i :: 0 <= i < |b| ==> p(b[i]) by {
      forall i | 0 <= i < |b| ensures p(b[i]) { assert b[i] == fields[k + 1 + i]; }
    }
    FilterDropsOne(a, c, b, p);
    assert a + b == fields;
  }

  lemma DuplicateKeepsUniqueIds(fields: seq<Field>, id: string, newId: string)
    requires UniqueIds(fields) && Present(fields, id) && !Present(fields, newId)
    ensures UniqueIds(Duplicate(fields, id, newId))
  {
    var k := IndexOf(fields, id);
    InsertKeepsUniqueIds(fields, k + 1, Copy(fields[k], newId));
  }

  // ---------------------------------------------------------------- save

  /** The save handler: `fields.map(f => f.id === u.id ? u : f)`. */
  function Replace(fields: seq<Field>, u: Field): (r: seq<Field>)
    ensures |r| == |fields|
    ensures forall i :: 0 <= i < |r| ==> r[i].id == fields[i].id
    ensures forall i :: 0 <= i < |r| && fields[i].id == u.id ==> r[i] == u
    ensures forall i :: 0 <= i < |r| && fields[i].id != u.id ==> r[i] == fields[i]
  {
    seq(|fields|, i requires 0 <= i < |fields| => if fields[i].id == u.id then u else fields[i])
  }

  /** Saving a field whose id is gone leaves the sequence as it is. */
  lemma ReplaceAbsent(fields: seq<Field>, u: Field)
    requires !Present(fields, u.id)
    ensures Replace(fields, u) == fields
  {
  }

  /** Saving keeps every id at its position, so distinct ids stay distinct. */
  lemma ReplaceKeepsUniqueIds(fields: seq<Field>, u: Field)
    requires UniqueIds(fields)
    ensures UniqueIds(Replace(fields, u))
    ensures forall id :: Present(Replace(fields, u), id) <==> Present(fields, id)
  {
    var r := Replace(fields, u);
    forall id | Present(r, id) ensures Present(fields, id) {
      var i :| 0 <= i < |r| && r[i].id == id;
      assert fields[i].id == id;
    }
    forall id | Present(fields, id) ensures Present(r, id) {
      var i :| 0 <= i < |fields| && fields[i].id == id;
      assert r[i].id == id;
    }
  }

  /** Saving the same field twice is the same as saving it once. */
  lemma ReplaceIdempotent(fields: seq<Field>, u: Field)
    ensures Replace(Replace(fields, u), u) == Replace(fields, u)
  {
  }

  /** With distinct ids, saving a field unchanged leaves the sequence as it is. */
  lemma ReplaceWithItself(fields: seq<Field>, k: nat)
    requires UniqueIds(fields) && k < |fields|
    ensures Replace(fields, fields[k]) == fields
  {
  }

  // ---------------------------------------------------------------- reorder

  /**
   * `handleFieldReorder(from, to)`: nothing happens when `to - from` is 0 or 1;
   * otherwise the field at `from` is spliced out and spliced back in at `to`,
   * counted in the shortened sequence (and clamped to its end).
   */
  function Reorder<T>(s: seq<T>, from: nat, to: nat): (r: seq<T>)
    requires from < |s|
    ensures |r| == |s| && multiset(r) == multiset(s)
  {
    if to - from == 0 || to - from == 1 then s
    else InsertAt(RemoveAt(s, from), to, s[from])
  }

  /** Where the moved element ends: `to`, clamped to the last index. */
  function Landing(len: nat, to: nat): nat
    requires len > 0
  {
    if to < len then to else len - 1
  }

  /** Dropping a field into the gap just before or just after itself changes nothing. */
  lemma ReorderAdjacentIsNoOp<T>(s: seq<T>, from: nat)
    requires from < |s|
    ensures Reorder(s, from, from) == s && Reorder(s, from, from + 1) == s
  {
  }

  /**
   * Any other move is a permutation: the moved element ends at `Landing(|s|, to)`
   * and the remaining elements keep their relative order.
   */
  lemma ReorderMoves<T>(s: seq<T>, from: nat, to: nat)
    requires from < |s| && to - from != 0 && to - from != 1
    ensures var r, t := Reorder(s, from, to), Landing(|s|, to);
      && |r| == |s|
      && multiset(r) == multiset(s)
      && t < |r| && r[t] == s[from]
      && RemoveAt(r, t) == RemoveAt(s, from)
  {
    var rest := RemoveAt(s, from);
    assert Clamp(to, |rest|) == Landing(|s|, to);
    RemoveInserted(rest, to, s[from]);
  }

  /** An upward move lands the element exactly in gap `to`. */
  lemma ReorderUpward<T>(s: seq<T>, from: nat, to: nat)
    requires to < from < |s|
    ensures Reorder(s, from, to) == s[..to] + [s[from]] + s[to..from] + s[from + 1..]
  {
    var r := Reorder(s, from, to);
    var e := s[..to] + [s[from]] + s[to..from] + s[from + 1..];
    assert |r| == |e|;
    forall i | 0 <= i < |r| ensures r[i] == e[i] {
      if i < to {
      } else if i == to {
      } else if i <= from {
        assert e[i] == s[i - 1];
      } else {
        assert e[i] == s[i];
      }
    }
  }

  /**
   * A downward move to a gap `to` between fields lands the element one place past
   * that gap: after the element that was at `to`, not before it.
   */
  lemma ReorderDownwardLandsAfterTarget<T>(s: seq<T>, from: nat, to: nat)
    requires from + 1 < to < |s|
    ensures Reorder(s, from, to)[to] == s[from]
    ensures Reorder(s, from, to)[to - 1] == s[to]
  {
  }

  /**
   * The bottom drop zone (gap `|s|`) and the gap before the last field give the
   * same result, except for the field just above the last one, for which the gap
   * before the last field is the no-op gap `from + 1`.
   */
  lemma ReorderLastGaps<T>(s: seq<T>, from: nat)
    requires from < |s| && from + 2 != |s|
    ensures Reorder(s, from, |s| - 1) == Reorder(s, from, |s|)
  {
  }

  /** Spliced moves keep distinct ids distinct. */
  lemma ReorderKeepsUniqueIds(fields: seq<Field>, from: nat, to: nat)
    requires UniqueIds(fields) && from < |fields|
    ensures UniqueIds(Reorder(fields, from, to))
  {
    if to - from != 0 && to - from != 1 {
      RemoveAtKeepsUniqueIds(fields, from);
      InsertKeepsUniqueIds(RemoveAt(fields, from), to, fields[from]);
    }
  }
}
