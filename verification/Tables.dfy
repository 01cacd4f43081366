/** What every sink of the pipeline relies on: INSERT ... ON CONFLICT (key) DO NOTHING,
    executed in chunks, with RETURNING counting the rows that were really inserted. */
module Tables {

  datatype Option<+T> = None | Some(value: T)

  datatype Entry<K, V> = Entry(key: K, row: V)

  function InsertOne<K, V>(table: map<K, V>, e: Entry<K, V>): map<K, V> {
    if e.key in table then table else table[e.key := e.row]
  }

  /** One multi-row statement, row after row: a later row loses to an earlier one with the same key. */
  function InsertAll<K, V>(table: map<K, V>, es: seq<Entry<K, V>>): map<K, V> {
    if es == [] then table
    else InsertOne(InsertAll(table, es[..|es| - 1]), es[|es| - 1])
  }

  ghost function KeysOf<K, V>(es: seq<Entry<K, V>>): set<K> {
    set i | 0 <= i < |es| :: es[i].key
  }

  ghost predicate DistinctKeys<K, V>(es: seq<Entry<K, V>>) {
    forall i, j :: 0 <= i < j < |es| ==> es[i].key != es[j].key
  }

  /** `i` is where key `k` occurs first in `es`. */
  ghost predicate FirstAt<K, V>(es: seq<Entry<K, V>>, k: K, i: int) {
    0 <= i < |es| && es[i].key == k && forall j :: 0 <= j < i ==> es[j].key != k
  }

  lemma {:induction false} InsertAllConcat<K, V>(table: map<K, V>, a: seq<Entry<K, V>>, b: seq<Entry<K, V>>)
    ensures InsertAll(table, a + b) == InsertAll(InsertAll(table, a), b)
  {
    if b == [] {
      assert a + b == a;
    } else {
      InsertAllConcat(table, a, b[..|b| - 1]);
      assert (a + b)[..|a + b| - 1] == a + b[..|b| - 1];
    }
  }

  /** The whole meaning of a statement: old rows stay, new keys appear, and a new key carries the
      row of its first occurrence. */
  lemma {:induction false} InsertAllMeaning<K, V>(table: map<K, V>, es: seq<Entry<K, V>>)
    ensures InsertAll(table, es).Keys == table.Keys + KeysOf(es)
    ensures forall k :: k in table ==> k in InsertAll(table, es) && InsertAll(table, es)[k] == table[k]
    ensures forall k, i :: FirstAt(es, k, i) && k !in table ==> k in InsertAll(table, es) && InsertAll(table, es)[k] == es[i].row
  {
    if es != [] {
      var init, last := es[..|es| - 1], es[|es| - 1];
      InsertAllMeaning(table, init);
      assert KeysOf(es) == KeysOf(init) + {last.key};
      forall k, i | FirstAt(es, k, i) && k !in table
        ensures k in InsertAll(table, es) && InsertAll(table, es)[k] == es[i].row
      {
        if i < |init| {
          assert FirstAt(init, k, i);
        } else {
          assert k !in KeysOf(init);
        }
      }
    }
  }

  /** Re-running a statement changes nothing, even after other rows were added in between. */
  lemma {:induction false} InsertAllAbsorbed<K, V>(table: map<K, V>, es: seq<Entry<K, V>>)
    requires KeysOf(es) <= table.Keys
    ensures InsertAll(table, es) == table
  {
    if es != [] {
      var init := es[..|es| - 1];
      assert KeysOf(init) <= KeysOf(es);
      InsertAllAbsorbed(table, init);
      assert es[|es| - 1].key in KeysOf(es);
    }
  }

  /** With distinct keys the order of the rows is irrelevant. */
  lemma {:induction false} InsertAllUnordered<K, V>(table: map<K, V>, a: seq<Entry<K, V>>, b: seq<Entry<K, V>>)
    requires DistinctKeys(a) && DistinctKeys(b)
    requires forall e :: e in a <==> e in b
    ensures InsertAll(table, a) == InsertAll(table, b)
  {
    InsertAllMeaning(table, a);
    InsertAllMeaning(table, b);
    assert KeysOf(a) == KeysOf(b) by { SameKeys(a, b); SameKeys(b, a); }
    forall k | k in KeysOf(a) && k !in table
      ensures InsertAll(table, a)[k] == InsertAll(table, b)[k]
    {
      var i :| 0 <= i < |a| && a[i].key == k;
      assert a[i] in b;
      var j :| 0 <= j < |b| && b[j] == a[i];
      assert FirstAt(a, k, i) && FirstAt(b, k, j);
    }
  }

  lemma SameKeys<K, V>(a: seq<Entry<K, V>>, b: seq<Entry<K, V>>)
    requires forall e :: e in a ==> e in b
    ensures KeysOf(a) <= KeysOf(b)
  {
    forall k | k in KeysOf(a)
      ensures k in KeysOf(b)
    {
      var i :| 0 <= i < |a| && a[i].key == k;
      assert a[i] in b;
    }
  }
}
