/**
 * The registry of watched fields of a slug control: the PHP associative
 * array `$fields`, keyed by each field's html id, and the fold that turns it
 * into the list of CSS id selectors sent to the client-side script.
 */
module FieldRegistry {

  /** A watched form control, reduced to what the slug control reads from it:
      its component name and its html id (`getHtmlId()`). The model assumes the
      id does not change after the field is added. */
  datatype Field = Field(name: string, htmlId: string)

  /** A PHP array with string keys: the keys in insertion order and the entries. */
  datatype OrderedMap = OrderedMap(keys: seq<string>, entries: map<string, Field>) {

    /** Every key occurs once in the order, and the order lists exactly the entries' keys. */
    ghost predicate Valid() {
      && (forall i, j :: 0 <= i < j < |keys| ==> keys[i] != keys[j])
      && (forall k :: k in entries <==> k in keys)
    }

    /** `$a[k] = v`: an existing key keeps its position and takes the new value;
        a new key is appended at the end. */
    function Set(k: string, v: Field): (r: OrderedMap)
      requires Valid()
      ensures r.Valid()
      ensures k in r.entries && r.entries[k] == v
      ensures forall j :: j in entries && j != k ==> j in r.entries && r.entries[j] == entries[j]
      ensures forall j :: j in r.entries ==> j in entries || j == k
      ensures |r.keys| == if k in entries then |keys| else |keys| + 1
      ensures forall i :: 0 <= i < |keys| ==> r.keys[i] == keys[i]
      ensures k !in entries ==> r.keys[|keys|] == k
    {
      if k in entries then OrderedMap(keys, entries[k := v])
      else OrderedMap(keys + [k], entries[k := v])
    }

    /** The entries in the order PHP iterates over them. */
    function Rows(): seq<Field>
      requires Valid()
    {
      seq(|keys|, i requires 0 <= i < |keys| => entries[keys[i]])
    }
  }

  /** The empty array `[]`. */
  const Empty: OrderedMap := OrderedMap([], map[])

  /** The `array_reduce` of the settings payload: appends `'#' . $row->getHtmlId()`
      to the accumulator for each row, in order. */
  function CollectSelectors(acc: seq<string>, rows: seq<Field>): (r: seq<string>)
    ensures |r| == |acc| + |rows|
    ensures r[..|acc|] == acc
    ensures forall i :: 0 <= i < |rows| ==> r[|acc| + i] == "#" + rows[i].htmlId
    decreases |rows|
  {
    if rows == [] then acc
    else CollectSelectors(acc + ["#" + rows[0].htmlId], rows[1..])
  }

  /** The selector list of a registry: one `#id` per row, in key order. */
  function Selectors(m: OrderedMap): (r: seq<string>)
    requires m.Valid()
    ensures |r| == |m.keys|
    ensures forall i :: 0 <= i < |m.keys| ==> r[i] == "#" + m.entries[m.keys[i]].htmlId
  {
    var rows := m.Rows();
    assert forall i :: 0 <= i < |rows| ==> rows[i] == m.entries[m.keys[i]];
    CollectSelectors([], rows)
  }

  // ---------------------------------------------------------------------------
  // A history of `addField` calls and reference definitions to compare it with.

  /** The html ids of a sequence of fields. */
  function Ids(fs: seq<Field>): seq<string> {
    seq(|fs|, i requires 0 <= i < |fs| => fs[i].htmlId)
  }

  /** `#` prepended to each id. */
  function IdSelectors(ids: seq<string>): seq<string> {
    seq(|ids|, i requires 0 <= i < |ids| => "#" + ids[i])
  }

  /** No element occurs twice. */
  ghost predicate Distinct(s: seq<string>) {
    forall i, j :: 0 <= i < j < |s| ==> s[i] != s[j]
  }

  /** Reference definition: the ids in order of their first occurrence,
      later repetitions dropped. */
  function FirstOccurrences(ids: seq<string>): seq<string>
    decreases |ids|
  {
    if ids == [] then []
    else
      var prefix, last := ids[..|ids| - 1], ids[|ids| - 1];
      if last in prefix then FirstOccurrences(prefix) else FirstOccurrences(prefix) + [last]
  }

  /** The registry after `addField` has been called with each of `fs` in turn,
      starting from the empty array. */
  function AddAll(fs: seq<Field>): (r: OrderedMap)
    ensures r.Valid()
    decreases |fs|
  {
    if fs == [] then Empty
    else
      var last := fs[|fs| - 1];
      AddAll(fs[..|fs| - 1]).Set(last.htmlId, last)
  }

  lemma {:induction false} FirstOccurrencesSpec(ids: seq<string>)
    ensures Distinct(FirstOccurrences(ids))
    ensures forall x :: x in FirstOccurrences(ids) <==> x in ids
    decreases |ids|
  {
    if ids != [] {
      var prefix := ids[..|ids| - 1];
      FirstOccurrencesSpec(prefix);
      assert ids == prefix + [ids[|ids| - 1]];
    }
  }

  /** A sequence without repetitions has as many elements as its set. */
  lemma {:induction false} DistinctCardinality(s: seq<string>)
    requires Distinct(s)
    ensures |set x | x in s| == |s|
    decreases |s|
  {
    if s != [] {
      var prefix, last := s[..|s| - 1], s[|s| - 1];
      DistinctCardinality(prefix);
      assert s == prefix + [last];
      assert (set x | x in s) == (set x | x in prefix) + {last};
      assert last !in (set x | x in prefix);
    }
  }

  /** The number of distinct ids among `fs`. */
  function DistinctIdCount(fs: seq<Field>): nat {
    |set i | 0 <= i < |fs| :: fs[i].htmlId|
  }

  /** Each id added is a key, and nothing else is; every key holds a handle
      with that id. */
  lemma {:induction false} AddAllEntries(fs: seq<Field>)
    ensures forall k :: k in AddAll(fs).entries <==> k in Ids(fs)
    ensures forall k :: k in AddAll(fs).entries ==> AddAll(fs).entries[k].htmlId == k
    decreases |fs|
  {
    if fs != [] {
      var prefix, last := fs[..|fs| - 1], fs[|fs| - 1];
      AddAllEntries(prefix);
      assert Ids(fs) == Ids(prefix) + [last.htmlId];
    }
  }

  /** The keys are the added ids in first-insertion order. */
  lemma {:induction false} AddAllKeys(fs: seq<Field>)
    ensures AddAll(fs).keys == FirstOccurrences(Ids(fs))
    decreases |fs|
  {
    if fs != [] {
      var prefix, last := fs[..|fs| - 1], fs[|fs| - 1];
      var m := AddAll(prefix);
      AddAllKeys(prefix);
      AddAllEntries(prefix);
      FirstOccurrencesSpec(Ids(prefix));
      assert Ids(fs)[..|fs| - 1] == Ids(prefix);
      assert Ids(fs)[|fs| - 1] == last.htmlId;
      if last.htmlId in m.entries {
        assert AddAll(fs).keys == m.keys;
      } else {
        assert AddAll(fs).keys == m.keys + [last.htmlId];
      }
    }
  }

  /** Last write wins: the handle stored under an id is the last one added with it. */
  lemma {:induction false} AddAllLastWins(fs: seq<Field>, i: nat)
    requires i < |fs|
    requires forall j :: i < j < |fs| ==> fs[j].htmlId != fs[i].htmlId
    ensures fs[i].htmlId in AddAll(fs).entries && AddAll(fs).entries[fs[i].htmlId] == fs[i]
    decreases |fs|
  {
    if i < |fs| - 1 {
      var prefix := fs[..|fs| - 1];
      AddAllLastWins(prefix, i);
    }
  }

  /** One more `addField` call: its id is appended to the first-occurrence
      order unless it was already there. */
  lemma FirstOccurrencesAfterAdd(fs: seq<Field>, f: Field)
    ensures IdSelectors(FirstOccurrences(Ids(fs + [f])))
         == IdSelectors(FirstOccurrences(Ids(fs))) + (if f.htmlId in Ids(fs) then [] else ["#" + f.htmlId])
  {
    var ids := Ids(fs + [f]);
    assert ids[..|ids| - 1] == Ids(fs);
    assert ids[|ids| - 1] == f.htmlId;
  }

  /** The selectors after one more `addField` call: the old list, with `#id`
      appended when the id is new. */
  lemma SelectorsAfterAdd(fs: seq<Field>, f: Field)
    ensures Selectors(AddAll(fs + [f]))
         == Selectors(AddAll(fs)) + (if f.htmlId in AddAll(fs).entries then [] else ["#" + f.htmlId])
  {
    SelectorsAfterAdds(fs);
    SelectorsAfterAdds(fs + [f]);
    FirstOccurrencesAfterAdd(fs, f);
    AddAllEntries(fs);
  }

  /** The selectors after a sequence of `addField` calls: one `#id` per added
      id, in first-insertion order. */
  lemma SelectorsAfterAdds(fs: seq<Field>)
    ensures Selectors(AddAll(fs)) == IdSelectors(FirstOccurrences(Ids(fs)))
  {
    AddAllKeys(fs);
    AddAllEntries(fs);
    var m := AddAll(fs);
    forall i | 0 <= i < |m.keys| ensures m.entries[m.keys[i]].htmlId == m.keys[i] {
      assert m.keys[i] in m.entries;
    }
  }

  /** The number of distinct ids added as a set comprehension over the ids. */
  lemma IdSetOfFirstOccurrences(fs: seq<Field>)
    ensures (set x | x in FirstOccurrences(Ids(fs))) == (set i | 0 <= i < |fs| :: fs[i].htmlId)
  {
    var ids := FirstOccurrences(Ids(fs));
    FirstOccurrencesSpec(Ids(fs));
    forall x | x in ids ensures x in (set i | 0 <= i < |fs| :: fs[i].htmlId) {
      var i :| 0 <= i < |Ids(fs)| && Ids(fs)[i] == x;
    }
    forall i | 0 <= i < |fs| ensures fs[i].htmlId in ids {
      assert Ids(fs)[i] == fs[i].htmlId;
    }
  }

  /** There are exactly as many selectors as distinct ids were added. */
  lemma SelectorCount(fs: seq<Field>)
    ensures |Selectors(AddAll(fs))| == DistinctIdCount(fs)
  {
    AddAllKeys(fs);
    FirstOccurrencesSpec(Ids(fs));
    DistinctCardinality(FirstOccurrences(Ids(fs)));
    IdSetOfFirstOccurrences(fs);
  }

  /** No selector is emitted twice. */
  lemma SelectorsDistinct(fs: seq<Field>)
    ensures Distinct(Selectors(AddAll(fs)))
  {
    SelectorsAfterAdds(fs);
    var ids := FirstOccurrences(Ids(fs));
    FirstOccurrencesSpec(Ids(fs));
    var sel := IdSelectors(ids);
    forall i, j | 0 <= i < j < |sel| ensures sel[i] != sel[j] {
      assert sel[i][1..] == ids[i] && sel[j][1..] == ids[j];
    }
  }
}
