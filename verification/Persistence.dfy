/**
 Saving a dictionary under a key prefix and reading it back. The server's keyspace is a map from keys to
 values; every remote call has an outcome chosen by the environment, and a call that fails may or may
 not have taken effect.
 */
module Persistence {
  import opened Prelude
  import opened KeyRange

  datatype Reply = Done | Refused | DoneReplyLost

  datatype Row<V> = Row(key: Key, value: V)

  /** The namespace and job name every key is placed under. */
  datatype Site = Site(space: Key, job: Key) {
    function Full(key: Key): Key {
      Namespaced(space, job, key)
    }

    function Child(prefix: Key, name: Key): Key {
      Full(prefix + SLASH + name)
    }

    /** Joining this name to the prefix does not by accident complete the namespace. */
    predicate Joins(prefix: Key, name: Key) {
      var root := space + SLASH + job + SLASH;
      root <= prefix || !(root <= prefix + SLASH + name)
    }
  }

  // ---------------------------------------------------------------------------------------------
  // The server
  // ---------------------------------------------------------------------------------------------

  function WithoutRange<V>(store: map<Key, V>, low: Key, high: Key): map<Key, V> {
    map k | k in store && !InRange(k, low, high) :: store[k]
  }

  /** The rows of a range read: every key in the range once, in whatever order. */
  ghost predicate Lists<V>(rows: seq<Row<V>>, store: map<Key, V>, low: Key, high: Key) {
    && (forall i, j :: 0 <= i < j < |rows| ==> rows[i].key != rows[j].key)
    && (forall i :: 0 <= i < |rows| ==>
          rows[i].key in store && InRange(rows[i].key, low, high) && store[rows[i].key] == rows[i].value)
    && (forall k :: k in store && InRange(k, low, high) ==> exists i :: 0 <= i < |rows| && rows[i].key == k)
  }

  // ---------------------------------------------------------------------------------------------
  // Persist
  // ---------------------------------------------------------------------------------------------

  function Wiped<V>(site: Site, store: map<Key, V>, prefix: Key, wipe: Reply): map<Key, V> {
    if wipe == Refused then store
    else WithoutRange(store, site.Full(prefix), RangeEnd(site.Full(prefix)))
  }

  /** How many of the puts are issued: all up to and including the first that fails. */
  function Written(replies: seq<Reply>): (n: nat)
    ensures n <= |replies|
    ensures forall i :: 0 <= i < n - 1 ==> replies[i] == Done
    ensures n == |replies| || replies[n] == Refused || (n > 0 && replies[n - 1] == DoneReplyLost)
    ensures n > 0 ==> replies[n - 1] != Refused
  {
    if replies == [] || replies[0] == Refused then 0
    else if replies[0] == DoneReplyLost then 1
    else 1 + Written(replies[1..])
  }

  predicate AllDone(replies: seq<Reply>) {
    forall i :: 0 <= i < |replies| ==> replies[i] == Done
  }

  function PutAll<V>(site: Site, store: map<Key, V>, prefix: Key, data: map<Key, V>, names: seq<Key>): map<Key, V>
    requires forall i :: 0 <= i < |names| ==> names[i] in data
  {
    if names == [] then store
    else
      var n := |names| - 1;
      PutAll(site, store, prefix, data, names[..n])[site.Child(prefix, names[n]) := data[names[n]]]
  }

  lemma PutAllNext<V>(site: Site, store: map<Key, V>, prefix: Key, data: map<Key, V>, names: seq<Key>, i: nat)
    requires i < |names| && forall j :: 0 <= j < |names| ==> names[j] in data
    ensures PutAll(site, store, prefix, data, names[..i + 1]) ==
            PutAll(site, store, prefix, data, names[..i])[site.Full(prefix + SLASH + names[i]) := data[names[i]]]
  {
    assert names[..i + 1][..i] == names[..i];
  }

  /** The order in which the dictionary is written: each of its keys once. */
  ghost predicate Orders<V>(names: seq<Key>, data: map<Key, V>) {
    && (forall i :: 0 <= i < |names| ==> names[i] in data)
    && (forall i, j :: 0 <= i < j < |names| ==> names[i] != names[j])
    && (forall k :: k in data ==> k in names)
  }

  function Persisted<V>(site: Site, store: map<Key, V>, prefix: Key, data: map<Key, V>, names: seq<Key>,
                        locked: bool, wipe: Reply, replies: seq<Reply>): map<Key, V>
    requires |replies| == |names| && forall i :: 0 <= i < |names| ==> names[i] in data
  {
    if !locked then store
    else PutAll(site, Wiped(site, store, prefix, wipe), prefix, data, names[..Written(replies)])
  }

  // ---------------------------------------------------------------------------------------------
  // Restore
  // ---------------------------------------------------------------------------------------------

  /** The number of bytes of a UTF-8 character, read off its first byte (section 3 of RFC 3629). */
  function Width(lead: byte): nat {
    if lead < 0xc0 then 1 else if lead < 0xe0 then 2 else if lead < 0xf0 then 3 else 4
  }

  function Tail(k: Key): Key
    requires k != []
  {
    if Width(k[0]) <= |k| then k[Width(k[0])..] else []
  }

  /** The length of the key as text. */
  function Chars(k: Key): nat
    decreases |k|
  {
    if k == [] then 0 else 1 + Chars(Tail(k))
  }

  /** The key does not end in the middle of a character. */
  predicate Whole(k: Key)
    decreases |k|
  {
    k == [] || (Width(k[0]) <= |k| && Whole(Tail(k)))
  }

  /** Slicing the text of a key from a character on, which is empty past its end. */
  function From(k: Key, n: nat): Key
    decreases n
  {
    if n == 0 || k == [] then k else From(Tail(k), n - 1)
  }

  /** The characters of a prefix and of the slash after it. */
  function Cut(full: Key): nat {
    Chars(full) + 1
  }

  lemma {:induction false} FromConcat(a: Key, b: Key, n: nat)
    requires Whole(a)
    ensures From(a + b, Chars(a) + n) == From(b, n)
    decreases |a|
  {
    if a == [] {
      assert a + b == b;
    } else {
      TailConcat(a, b);
      FromConcat(Tail(a), b, n);
    }
  }

  lemma TailConcat(a: Key, b: Key)
    requires a != [] && Width(a[0]) <= |a|
    ensures Tail(a + b) == Tail(a) + b
  {
  }

  /** The relative names of the rows with their values; a later row overwrites an earlier one. */
  function Collect<V>(rows: seq<Row<V>>, cut: nat): map<Key, V> {
    if rows == [] then map[]
    else
      var n := |rows| - 1;
      Collect(rows[..n], cut)[From(rows[n].key, cut) := rows[n].value]
  }

  /** The result of `restore_data`: nothing for a failed read and for no rows alike. */
  function Restored<V>(site: Site, prefix: Key, answer: Option<seq<Row<V>>>): Option<map<Key, V>> {
    if answer == None || answer.value == [] then None
    else Some(Collect(answer.value, Cut(site.Full(prefix))))
  }

  class EtcdClient<V(==)> {
    const site: Site
    var store: map<Key, V>

    constructor (site: Site)
      ensures this.site == site && store == map[]
    {
      this.site := site;
      store := map[];
    }

    method DeletePrefix(prefix: Key, reply: Reply) returns (ok: bool)
      modifies this
      ensures ok <==> reply == Done
      ensures store == Wiped(site, old(store), prefix, reply)
    {
      var full := site.Full(prefix);
      var end := PrefixRangeEnd(full);
      if reply != Refused {
        store := map k | k in store && !InRange(k, full, end) :: store[k];
      }
      ok := reply == Done;
    }

    method PutJson(key: Key, value: V, reply: Reply) returns (ok: bool)
      modifies this
      ensures ok <==> reply == Done
      ensures store == if reply == Refused then old(store) else old(store)[site.Full(key) := value]
    {
      if reply != Refused {
        store := store[site.Full(key) := value];
      }
      ok := reply == Done;
    }

    /** The result of deleting the old data is ignored, as in the source. */
    method PersistData(prefix: Key, data: map<Key, V>, names: seq<Key>,
                       locked: bool, wipe: Reply, replies: seq<Reply>)
      returns (ok: bool)
      requires Orders(names, data) && |replies| == |names|
      modifies this
      ensures ok <==> locked && AllDone(replies)
      ensures store == Persisted(site, old(store), prefix, data, names, locked, wipe, replies)
    {
      if !locked {
        return false;
      }
      var _ := DeletePrefix(prefix, wipe);
      ghost var wiped := store;
      for i := 0 to |names|
        invariant forall j :: 0 <= j < i ==> replies[j] == Done
        invariant store == PutAll(site, wiped, prefix, data, names[..i])
      {
        PutAllNext(site, wiped, prefix, data, names, i);
        var stored := PutJson(prefix + SLASH + names[i], data[names[i]], replies[i]);
        if !stored {
          WrittenStopsAt(replies, i);
          return false;
        }
      }
      WrittenAll(replies);
      ok := true;
    }

    method GetPrefixData(prefix: Key, answer: Option<seq<Row<V>>>) returns (data: map<Key, V>)
      ensures data == if answer == None then map[] else Collect(answer.value, Cut(site.Full(prefix)))
    {
      data := map[];
      if answer.Some? {
        var rows := answer.value;
        for i := 0 to |rows|
          invariant data == Collect(rows[..i], Cut(site.Full(prefix)))
        {
          assert rows[..i + 1][..i] == rows[..i];
          data := data[From(rows[i].key, Cut(site.Full(prefix))) := rows[i].value];
        }
        assert rows[..|rows|] == rows;
      }
    }

    method RestoreData(prefix: Key, answer: Option<seq<Row<V>>>) returns (data: Option<map<Key, V>>)
      ensures data == Restored(site, prefix, answer)
    {
      var found := GetPrefixData(prefix, answer);
      assert answer.Some? && answer.value != [] ==>
          From(answer.value[|answer.value| - 1].key, Cut(site.Full(prefix))) in found;
      data := if found == map[] then None else Some(found);
    }
  }

  lemma {:induction false} WrittenStopsAt(replies: seq<Reply>, i: nat)
    requires i < |replies| && replies[i] != Done
    requires forall j :: 0 <= j < i ==> replies[j] == Done
    ensures Written(replies) == if replies[i] == Refused then i else i + 1
    decreases i
  {
    if i > 0 { WrittenStopsAt(replies[1..], i - 1); }
  }

  lemma {:induction false} WrittenAll(replies: seq<Reply>)
    requires AllDone(replies)
    ensures Written(replies) == |replies|
    decreases |replies|
  {
    if replies != [] { WrittenAll(replies[1..]); }
  }

  // ---------------------------------------------------------------------------------------------
  // What a save leaves in the store
  // ---------------------------------------------------------------------------------------------

  /** The prefix ends, once encoded, in a whole character and a byte below 0xff, and its names join cleanly. */
  ghost predicate WellPrefixed(site: Site, prefix: Key, names: seq<Key>) {
    && var full := site.Full(prefix);
    && full != [] && full[|full| - 1] < 255 && Whole(full)
    && forall i :: 0 <= i < |names| ==> site.Joins(prefix, names[i])
  }

  lemma ChildIsBelow(site: Site, prefix: Key, name: Key)
    requires site.Joins(prefix, name)
    ensures site.Child(prefix, name) == site.Full(prefix) + SLASH + name
  {
    NamespacedChild(site.space, site.job, prefix, name);
  }

  /** The puts write the value of each name under its child key. */
  lemma {:induction false} PutAllStores<V>(site: Site, store: map<Key, V>, prefix: Key, data: map<Key, V>, names: seq<Key>, i: nat)
    requires forall i :: 0 <= i < |names| ==> names[i] in data && site.Joins(prefix, names[i])
    requires i < |names|
    ensures var end := PutAll(site, store, prefix, data, names);
            site.Child(prefix, names[i]) in end && end[site.Child(prefix, names[i])] == data[names[i]]
    decreases |names|
  {
    var n := |names| - 1;
    SameChildSameName(site, prefix, names[i], names[n]);
    if i < n {
      PutAllStores(site, store, prefix, data, names[..n], i);
    }
  }

  /** And nothing else is written. */
  lemma {:induction false} PutAllKeeps<V>(site: Site, store: map<Key, V>, prefix: Key, data: map<Key, V>, names: seq<Key>, k: Key)
    requires forall i :: 0 <= i < |names| ==> names[i] in data
    ensures var end := PutAll(site, store, prefix, data, names);
            && (k in store ==> k in end)
            && (k in end ==> (k in store && end[k] == store[k]) || exists i :: 0 <= i < |names| && k == site.Child(prefix, names[i]))
    decreases |names|
  {
    if names != [] {
      var n := |names| - 1;
      PutAllKeeps(site, store, prefix, data, names[..n], k);
      if i :| 0 <= i < |names[..n]| && k == site.Child(prefix, names[..n][i]) {
        assert k == site.Child(prefix, names[i]);
      }
    }
  }

  lemma PutAllWrites<V>(site: Site, store: map<Key, V>, prefix: Key, data: map<Key, V>, names: seq<Key>)
    requires forall i :: 0 <= i < |names| ==> names[i] in data && site.Joins(prefix, names[i])
    ensures var end := PutAll(site, store, prefix, data, names);
            && (forall i :: 0 <= i < |names| ==> site.Child(prefix, names[i]) in end && end[site.Child(prefix, names[i])] == data[names[i]])
            && (forall k :: k in end ==> (k in store && end[k] == store[k]) || exists i :: 0 <= i < |names| && k == site.Child(prefix, names[i]))
            && (forall k :: k in store ==> k in end)
  {
    var end := PutAll(site, store, prefix, data, names);
    forall i | 0 <= i < |names|
      ensures site.Child(prefix, names[i]) in end && end[site.Child(prefix, names[i])] == data[names[i]]
    {
      PutAllStores(site, store, prefix, data, names, i);
    }
    forall k
      ensures k in store ==> k in end
      ensures k in end ==> (k in store && end[k] == store[k]) || exists i :: 0 <= i < |names| && k == site.Child(prefix, names[i])
    {
      PutAllKeeps(site, store, prefix, data, names, k);
    }
  }

  lemma SameChildSameName(site: Site, prefix: Key, a: Key, b: Key)
    requires site.Joins(prefix, a) && site.Joins(prefix, b)
    ensures site.Child(prefix, a) == site.Child(prefix, b) <==> a == b
  {
    ChildIsBelow(site, prefix, a);
    ChildIsBelow(site, prefix, b);
    var n := |site.Full(prefix)| + 1;
    assert site.Child(prefix, a)[n..] == a && site.Child(prefix, b)[n..] == b;
  }

  /**
   Whatever the outcome of each remote call, a save changes no key outside its prefix.
   */
  lemma OutsideUntouched<V>(site: Site, store: map<Key, V>, prefix: Key, data: map<Key, V>, names: seq<Key>,
                            locked: bool, wipe: Reply, replies: seq<Reply>, k: Key)
    requires Orders(names, data) && |replies| == |names| && WellPrefixed(site, prefix, names)
    requires !(site.Full(prefix) <= k)
    ensures var end := Persisted(site, store, prefix, data, names, locked, wipe, replies);
            (k in end <==> k in store) && (k in store ==> end[k] == store[k])
  {
    RangeIsExact(site.Full(prefix));
    if locked {
      var wiped := Wiped(site, store, prefix, wipe);
      assert k in wiped <==> k in store;
      var part := names[..Written(replies)];
      PutAllWrites(site, wiped, prefix, data, part);
      forall i | 0 <= i < |part| ensures k != site.Child(prefix, part[i]) {
        ChildIsBelow(site, prefix, part[i]);
      }
    }
  }

  /** So a read under a prefix that is not comparable to the saved one returns the same rows as before. */
  lemma UnrelatedReadsKept<V>(site: Site, store: map<Key, V>, prefix: Key, data: map<Key, V>, names: seq<Key>,
                              locked: bool, wipe: Reply, replies: seq<Reply>, other: Key, rows: seq<Row<V>>)
    requires Orders(names, data) && |replies| == |names| && WellPrefixed(site, prefix, names)
    requires WellPrefixed(site, other, [])
    requires !(site.Full(prefix) <= site.Full(other)) && !(site.Full(other) <= site.Full(prefix))
    ensures var end := Persisted(site, store, prefix, data, names, locked, wipe, replies);
            var low := site.Full(other);
            Lists(rows, store, low, RangeEnd(low)) <==> Lists(rows, end, low, RangeEnd(low))
  {
    var end := Persisted(site, store, prefix, data, names, locked, wipe, replies);
    var low := site.Full(other);
    RangeIsExact(low);
    forall k | InRange(k, low, RangeEnd(low))
      ensures (k in end <==> k in store) && (k in store ==> end[k] == store[k])
    {
      assert low <= k;
      if site.Full(prefix) <= k {
        PrefixesOfOneKey(site.Full(prefix), low, k);
      } else {
        OutsideUntouched(site, store, prefix, data, names, locked, wipe, replies, k);
      }
    }
  }

  /** One save with the outcome of all its calls. */
  datatype Save = Save(data: map<Key, string>, names: seq<Key>, locked: bool, wipe: Reply, replies: seq<Reply>)

  ghost predicate ValidSave(site: Site, prefix: Key, save: Save) {
    Orders(save.names, save.data) && |save.replies| == |save.names| && WellPrefixed(site, prefix, save.names)
  }

  /** The rows listed for a prefix before and after a save under another one. */
  ghost predicate SameRows(site: Site, store: map<Key, string>, prefix: Key, save: Save, other: Key, rows: seq<Row<string>>)
    requires ValidSave(site, prefix, save)
  {
    var end := Persisted(site, store, prefix, save.data, save.names, save.locked, save.wipe, save.replies);
    var low := site.Full(other);
    Lists(rows, store, low, RangeEnd(low)) <==> Lists(rows, end, low, RangeEnd(low))
  }

  /** Whatever the store, the data and the outcome, saving under one prefix does not show under the other. */
  ghost predicate ReadsKept(site: Site, prefix: Key, other: Key) {
    forall store: map<Key, string>, save: Save, rows: seq<Row<string>> ::
      ValidSave(site, prefix, save) ==> SameRows(site, store, prefix, save, other, rows)
  }

  /**
   A save under one prefix leaves what is read under another as it was, for every store, dictionary and
   outcome, if and only if neither namespaced prefix is a prefix of the other. The separating slash is not
   part of the range: "/a" and "/ab" are comparable.
   */
  lemma ReadsKeptIff(site: Site, prefix: Key, other: Key)
    requires WellPrefixed(site, prefix, []) && WellPrefixed(site, other, [])
    ensures ReadsKept(site, prefix, other) <==> !(site.Full(prefix) <= site.Full(other)) && !(site.Full(other) <= site.Full(prefix))
  {
    if !(site.Full(prefix) <= site.Full(other)) && !(site.Full(other) <= site.Full(prefix)) {
      forall store: map<Key, string>, save: Save, rows: seq<Row<string>> | ValidSave(site, prefix, save)
        ensures SameRows(site, store, prefix, save, other, rows)
      {
        UnrelatedReadsKept(site, store, prefix, save.data, save.names, save.locked, save.wipe, save.replies, other, rows);
      }
    } else {
      var k := if site.Full(prefix) <= site.Full(other) then site.Full(other) else site.Full(prefix);
      SharedKeyIsWiped(site, prefix, other, k);
    }
  }

  /** An empty save that succeeds deletes every key with the prefix. */
  lemma EmptySaveWipes(site: Site, store: map<Key, string>, prefix: Key, k: Key)
    requires WellPrefixed(site, prefix, []) && site.Full(prefix) <= k
    ensures k !in Persisted(site, store, prefix, map[], [], true, Done, [])
  {
    RangeIsExact(site.Full(prefix));
  }

  /** A key in both ranges is read under one prefix until an empty save under the other deletes it. */
  lemma SharedKeyIsWiped(site: Site, prefix: Key, other: Key, k: Key)
    requires WellPrefixed(site, prefix, []) && WellPrefixed(site, other, [])
    requires site.Full(prefix) <= k && site.Full(other) <= k
    ensures !ReadsKept(site, prefix, other)
  {
    var store: map<Key, string> := map[k := "{}"];
    var save := Save(map[], [], true, Done, []);
    EmptySaveWipes(site, store, prefix, k);
    RangeIsExact(site.Full(other));
    OneRowLists(k, "{}", Persisted(site, store, prefix, map[], [], true, Done, []), site.Full(other));
    assert ValidSave(site, prefix, save);
    assert !SameRows(site, store, prefix, save, other, [Row(k, "{}")]);
  }

  /** A single key is listed where it is and not where it is gone. */
  lemma OneRowLists<V>(k: Key, v: V, end: map<Key, V>, low: Key)
    requires InRange(k, low, RangeEnd(low)) && k !in end
    ensures Lists([Row(k, v)], map[k := v], low, RangeEnd(low)) && !Lists([Row(k, v)], end, low, RangeEnd(low))
  {
    assert [Row(k, v)][0].key == k;
  }

  // ---------------------------------------------------------------------------------------------
  // What a restore reads back
  // ---------------------------------------------------------------------------------------------

  ghost predicate Named<V>(rows: seq<Row<V>>, cut: nat, n: Key) {
    exists i :: 0 <= i < |rows| && From(rows[i].key, cut) == n
  }

  lemma NamedLast<V>(rows: seq<Row<V>>, cut: nat, n: Key)
    requires rows != []
    ensures Named(rows, cut, n) <==> Named(rows[..|rows| - 1], cut, n) || From(rows[|rows| - 1].key, cut) == n
  {
    var m := |rows| - 1;
    if Named(rows[..m], cut, n) {
      var i :| 0 <= i < m && From(rows[..m][i].key, cut) == n;
      assert From(rows[i].key, cut) == n;
    }
    if i :| 0 <= i < |rows| && From(rows[i].key, cut) == n && i < m {
      assert rows[..m][i] == rows[i];
    }
  }

  lemma {:induction false} CollectNames<V>(rows: seq<Row<V>>, cut: nat, n: Key)
    ensures n in Collect(rows, cut) <==> Named(rows, cut, n)
    decreases |rows|
  {
    if rows != [] {
      NamedLast(rows, cut, n);
      CollectNames(rows[..|rows| - 1], cut, n);
    }
  }

  lemma {:induction false} CollectValues<V>(rows: seq<Row<V>>, cut: nat)
    requires forall i, j :: 0 <= i < j < |rows| ==> From(rows[i].key, cut) != From(rows[j].key, cut)
    ensures forall i :: 0 <= i < |rows| ==> From(rows[i].key, cut) in Collect(rows, cut) && Collect(rows, cut)[From(rows[i].key, cut)] == rows[i].value
    decreases |rows|
  {
    if rows != [] {
      var m := |rows| - 1;
      CollectValues(rows[..m], cut);
      forall i | 0 <= i < m
        ensures From(rows[i].key, cut) in Collect(rows, cut) && Collect(rows, cut)[From(rows[i].key, cut)] == rows[i].value
      {
        assert rows[..m][i] == rows[i];
      }
    }
  }

  function Entry(full: Key, name: Key): Key {
    full + SLASH + name
  }

  function NameIn(full: Key, k: Key): Key {
    From(k, Cut(full))
  }

  lemma EntryName(full: Key, name: Key)
    requires Whole(full)
    ensures NameIn(full, Entry(full, name)) == name && full <= Entry(full, name)
  {
    assert Entry(full, name) == full + (SLASH + name);
    FromConcat(full, SLASH + name, 1);
    assert Tail(SLASH + name) == name;
  }

  /** What the store holds under a prefix is these entries and nothing else. */
  ghost predicate HoldsUnder<V>(store: map<Key, V>, full: Key, entries: map<Key, V>) {
    && (forall n :: n in entries ==> Entry(full, n) in store && store[Entry(full, n)] == entries[n])
    && (forall k :: k in store && full <= k ==> NameIn(full, k) in entries && k == Entry(full, NameIn(full, k)))
  }

  /** A range read in terms of prefixes. */
  ghost predicate ListsPrefix<V>(rows: seq<Row<V>>, store: map<Key, V>, full: Key) {
    && (forall i, j :: 0 <= i < j < |rows| ==> rows[i].key != rows[j].key)
    && (forall i :: 0 <= i < |rows| ==> rows[i].key in store && full <= rows[i].key && store[rows[i].key] == rows[i].value)
    && (forall k :: k in store && full <= k ==> exists i :: 0 <= i < |rows| && rows[i].key == k)
  }

  lemma RangeReadIsPrefixRead<V>(rows: seq<Row<V>>, store: map<Key, V>, full: Key)
    requires full != []
    requires full[|full| - 1] < 255
    requires Lists(rows, store, full, RangeEnd(full))
    ensures ListsPrefix(rows, store, full)
  {
    RangeIsExact(full);
    forall i | 0 <= i < |rows| ensures full <= rows[i].key {
      assert InRange(rows[i].key, full, RangeEnd(full));
    }
    forall k | k in store && full <= k ensures exists i :: 0 <= i < |rows| && rows[i].key == k {
      assert InRange(k, full, RangeEnd(full));
    }
  }

  /** Rows of proper entries have different names. */
  lemma NamesDiffer<V>(rows: seq<Row<V>>, store: map<Key, V>, full: Key, entries: map<Key, V>)
    requires ListsPrefix(rows, store, full) && HoldsUnder(store, full, entries)
    ensures forall i, j :: 0 <= i < j < |rows| ==> From(rows[i].key, Cut(full)) != From(rows[j].key, Cut(full))
  {
    forall i, j | 0 <= i < j < |rows| ensures From(rows[i].key, Cut(full)) != From(rows[j].key, Cut(full)) {
      assert rows[i].key == Entry(full, NameIn(full, rows[i].key));
      assert rows[j].key == Entry(full, NameIn(full, rows[j].key));
    }
  }

  lemma EntryIsRead<V>(rows: seq<Row<V>>, store: map<Key, V>, full: Key, entries: map<Key, V>, n: Key)
    requires ListsPrefix(rows, store, full) && HoldsUnder(store, full, entries) && n in entries && Whole(full)
    ensures n in Collect(rows, Cut(full)) && Collect(rows, Cut(full))[n] == entries[n]
  {
    EntryName(full, n);
    NamesDiffer(rows, store, full, entries);
    CollectValues(rows, Cut(full));
    var i :| 0 <= i < |rows| && rows[i].key == Entry(full, n);
  }

  lemma ReadIsEntry<V>(rows: seq<Row<V>>, store: map<Key, V>, full: Key, entries: map<Key, V>, n: Key)
    requires ListsPrefix(rows, store, full) && HoldsUnder(store, full, entries) && n in Collect(rows, Cut(full))
    ensures n in entries
  {
    CollectNames(rows, Cut(full), n);
    var i :| 0 <= i < |rows| && From(rows[i].key, Cut(full)) == n;
    assert NameIn(full, rows[i].key) in entries;
  }

  lemma ReadEntries<V>(rows: seq<Row<V>>, store: map<Key, V>, full: Key, entries: map<Key, V>)
    requires ListsPrefix(rows, store, full) && HoldsUnder(store, full, entries) && Whole(full)
    ensures Collect(rows, Cut(full)) == entries
  {
    var found := Collect(rows, Cut(full));
    forall n | n in entries ensures n in found && found[n] == entries[n] {
      EntryIsRead(rows, store, full, entries, n);
    }
    forall n | n in found ensures n in entries && found[n] == entries[n] {
      ReadIsEntry(rows, store, full, entries, n);
      EntryIsRead(rows, store, full, entries, n);
    }
    SameDictionary(found, entries);
  }

  lemma ChildIsEntry(site: Site, prefix: Key, name: Key)
    requires site.Joins(prefix, name)
    ensures site.Child(prefix, name) == Entry(site.Full(prefix), name)
  {
    ChildIsBelow(site, prefix, name);
  }

  /** The entries of a dictionary whose puts took effect. */
  function Effective<V>(data: map<Key, V>, names: seq<Key>, replies: seq<Reply>): map<Key, V>
    requires |replies| == |names|
  {
    map k | k in data && k in names[..Written(replies)] :: data[k]
  }

  lemma WipedHoldsNothing<V>(site: Site, store: map<Key, V>, prefix: Key, wipe: Reply, k: Key)
    requires WellPrefixed(site, prefix, []) && wipe != Refused
    requires site.Full(prefix) <= k
    ensures k !in Wiped(site, store, prefix, wipe)
  {
    RangeIsExact(site.Full(prefix));
  }

  /** A save that deleted the old data leaves exactly the entries whose puts took effect. */
  lemma SaveLeavesEffective<V>(site: Site, store: map<Key, V>, prefix: Key, data: map<Key, V>, names: seq<Key>,
                               wipe: Reply, replies: seq<Reply>)
    requires Orders(names, data) && |replies| == |names| && WellPrefixed(site, prefix, names)
    requires wipe != Refused
    ensures HoldsUnder(Persisted(site, store, prefix, data, names, true, wipe, replies), site.Full(prefix),
                       Effective(data, names, replies))
  {
    var part := names[..Written(replies)];
    var end := Persisted(site, store, prefix, data, names, true, wipe, replies);
    var full := site.Full(prefix);
    var wiped := Wiped(site, store, prefix, wipe);
    var entries := Effective(data, names, replies);
    PutAllWrites(site, wiped, prefix, data, part);
    forall n | n in entries ensures Entry(full, n) in end && end[Entry(full, n)] == entries[n] {
      var j :| 0 <= j < |part| && part[j] == n;
      ChildIsEntry(site, prefix, part[j]);
    }
    forall k | k in end && full <= k ensures NameIn(full, k) in entries && k == Entry(full, NameIn(full, k)) {
      WipedHoldsNothing(site, store, prefix, wipe, k);
      var j :| 0 <= j < |part| && k == site.Child(prefix, part[j]);
      ChildIsEntry(site, prefix, part[j]);
      EntryName(full, part[j]);
    }
  }

  /** What a restore gives back for a dictionary: an empty one is nothing. */
  function Dictionary<V>(data: map<Key, V>): Option<map<Key, V>> {
    if data == map[] then None else Some(data)
  }

  lemma LastRowWins<V>(rows: seq<Row<V>>, cut: nat)
    requires rows != []
    ensures var last := rows[|rows| - 1];
            From(last.key, cut) in Collect(rows, cut) && Collect(rows, cut)[From(last.key, cut)] == last.value
  {
    var n := |rows| - 1;
    assert Collect(rows, cut) == Collect(rows[..n], cut)[From(rows[n].key, cut) := rows[n].value];
  }

  lemma CollectedIsRestored<V>(site: Site, prefix: Key, rows: seq<Row<V>>, data: map<Key, V>)
    ensures Collect(rows, Cut(site.Full(prefix))) == data <==> Restored(site, prefix, Some(rows)) == Dictionary(data)
  {
    if rows != [] { LastRowWins(rows, Cut(site.Full(prefix))); }
  }

  /**
   Save, then restore. Once the old data is deleted, a read returns exactly the entries whose puts took
   effect, in whatever order the rows come back.
   */
  lemma RestoreReturnsWritten<V>(site: Site, store: map<Key, V>, prefix: Key, data: map<Key, V>, names: seq<Key>,
                                 wipe: Reply, replies: seq<Reply>, rows: seq<Row<V>>)
    requires Orders(names, data) && |replies| == |names| && WellPrefixed(site, prefix, names)
    requires wipe != Refused
    requires Lists(rows, Persisted(site, store, prefix, data, names, true, wipe, replies), site.Full(prefix), RangeEnd(site.Full(prefix)))
    ensures Restored(site, prefix, Some(rows)) == Dictionary(Effective(data, names, replies))
  {
    var end := Persisted(site, store, prefix, data, names, true, wipe, replies);
    SaveLeavesEffective(site, store, prefix, data, names, wipe, replies);
    assert Collect(rows, Cut(site.Full(prefix))) == Effective(data, names, replies) by {
      RangeReadIsPrefixRead(rows, end, site.Full(prefix));
      ReadEntries(rows, end, site.Full(prefix), Effective(data, names, replies));
    }
    CollectedIsRestored(site, prefix, rows, Effective(data, names, replies));
  }

  /**
   The dictionary read back is the one saved: a save that reported success and deleted the old data is
   undone by a restore, except that an empty dictionary comes back as nothing.
   */
  lemma PersistThenRestore<V>(site: Site, store: map<Key, V>, prefix: Key, data: map<Key, V>, names: seq<Key>,
                              wipe: Reply, replies: seq<Reply>, rows: seq<Row<V>>)
    requires Orders(names, data) && |replies| == |names| && WellPrefixed(site, prefix, names)
    requires wipe != Refused && AllDone(replies)
    requires Lists(rows, Persisted(site, store, prefix, data, names, true, wipe, replies), site.Full(prefix), RangeEnd(site.Full(prefix)))
    ensures Restored(site, prefix, Some(rows)) == Dictionary(data)
  {
    RestoreReturnsWritten(site, store, prefix, data, names, wipe, replies, rows);
    WrittenAll(replies);
    assert names[..|names|] == names;
    assert Effective(data, names, replies) == data;
  }

  /**
   Every old key with the prefix is read back under a name that is saved again, and is either the key of
   that name, which is overwritten, or already holds the saved value.
   */
  ghost predicate Covers<V>(store: map<Key, V>, full: Key, data: map<Key, V>) {
    forall k :: k in store && full <= k ==> CoveredKey(store, full, data, k)
  }

  ghost predicate CoveredKey<V>(store: map<Key, V>, full: Key, data: map<Key, V>, k: Key)
    requires k in store
  {
    NameIn(full, k) in data && (k == Entry(full, NameIn(full, k)) || store[k] == data[NameIn(full, k)])
  }

  /** The names read back are those of the keys with the prefix. */
  lemma NamesReadBack<V>(rows: seq<Row<V>>, store: map<Key, V>, full: Key, n: Key)
    requires ListsPrefix(rows, store, full)
    ensures n in Collect(rows, Cut(full)) <==> exists k :: k in store && full <= k && NameIn(full, k) == n
  {
    CollectNames(rows, Cut(full), n);
    if n in Collect(rows, Cut(full)) {
      var i :| 0 <= i < |rows| && From(rows[i].key, Cut(full)) == n;
      assert rows[i].key in store && full <= rows[i].key && NameIn(full, rows[i].key) == n;
    }
  }

  /** Without the deletion, the saved entries are there and every other key with the prefix is an old one. */
  ghost predicate Merges<V>(store: map<Key, V>, end: map<Key, V>, full: Key, data: map<Key, V>) {
    && (forall n :: n in data ==> Entry(full, n) in end && end[Entry(full, n)] == data[n])
    && (forall k :: k in end && !IsEntry(full, data, k) ==> k in store && end[k] == store[k])
    && (forall k :: k in store ==> k in end)
  }

  predicate IsEntry<V>(full: Key, data: map<Key, V>, k: Key) {
    NameIn(full, k) in data && k == Entry(full, NameIn(full, k))
  }

  lemma RefusedWipeMerges<V>(site: Site, store: map<Key, V>, prefix: Key, data: map<Key, V>, names: seq<Key>)
    requires Orders(names, data) && WellPrefixed(site, prefix, names)
    ensures Merges(store, PutAll(site, store, prefix, data, names), site.Full(prefix), data)
  {
    var full := site.Full(prefix);
    var end := PutAll(site, store, prefix, data, names);
    PutAllWrites(site, store, prefix, data, names);
    forall n | n in data ensures Entry(full, n) in end && end[Entry(full, n)] == data[n] {
      var j :| 0 <= j < |names| && names[j] == n;
      ChildIsEntry(site, prefix, n);
    }
    forall k | k in end && !IsEntry(full, data, k) ensures k in store && end[k] == store[k] {
      if j :| 0 <= j < |names| && k == site.Child(prefix, names[j]) {
        ChildIsEntry(site, prefix, names[j]);
        EntryName(full, names[j]);
      }
    }
  }

  /** Rows that all agree with a dictionary are collected into part of it. */
  lemma {:induction false} CollectAgrees<V>(rows: seq<Row<V>>, cut: nat, data: map<Key, V>)
    requires forall i :: 0 <= i < |rows| ==> From(rows[i].key, cut) in data && data[From(rows[i].key, cut)] == rows[i].value
    ensures forall n :: n in Collect(rows, cut) ==> n in data && Collect(rows, cut)[n] == data[n]
    decreases |rows|
  {
    if rows != [] {
      var m := |rows| - 1;
      assert forall i :: 0 <= i < m ==> rows[..m][i] == rows[i];
      CollectAgrees(rows[..m], cut, data);
    }
  }

  lemma CoveredRowAgrees<V>(rows: seq<Row<V>>, store: map<Key, V>, end: map<Key, V>, full: Key, data: map<Key, V>, i: nat)
    requires ListsPrefix(rows, end, full) && Merges(store, end, full, data) && Covers(store, full, data) && i < |rows|
    ensures NameIn(full, rows[i].key) in data && data[NameIn(full, rows[i].key)] == rows[i].value
  {
    var k := rows[i].key;
    if !IsEntry(full, data, k) {
      assert k in store && CoveredKey(store, full, data, k);
    }
  }

  lemma CoveredReadsBack<V>(rows: seq<Row<V>>, store: map<Key, V>, end: map<Key, V>, full: Key, data: map<Key, V>)
    requires ListsPrefix(rows, end, full) && Merges(store, end, full, data) && Covers(store, full, data) && Whole(full)
    ensures Collect(rows, Cut(full)) == data
  {
    forall i | 0 <= i < |rows|
      ensures From(rows[i].key, Cut(full)) in data && data[From(rows[i].key, Cut(full))] == rows[i].value
    {
      CoveredRowAgrees(rows, store, end, full, data, i);
    }
    CollectAgrees(rows, Cut(full), data);
    forall n | n in data ensures n in Collect(rows, Cut(full)) {
      SavedIsRead(rows, store, end, full, data, n);
    }
    SameDictionary(Collect(rows, Cut(full)), data);
  }

  lemma SameDictionary<V>(found: map<Key, V>, data: map<Key, V>)
    requires forall n :: n in found ==> n in data && found[n] == data[n]
    requires forall n :: n in data ==> n in found
    ensures found == data
  {
  }

  lemma SavedIsRead<V>(rows: seq<Row<V>>, store: map<Key, V>, end: map<Key, V>, full: Key, data: map<Key, V>, n: Key)
    requires ListsPrefix(rows, end, full) && Merges(store, end, full, data) && n in data && Whole(full)
    ensures n in Collect(rows, Cut(full))
  {
    EntryName(full, n);
    NamesReadBack(rows, end, full, n);
  }

  /** The keys of a range in some order, with one of them last. */
  lemma {:induction false} SomeOrder<V>(keys: set<Key>, store: map<Key, V>) returns (rows: seq<Row<V>>)
    requires keys <= store.Keys
    ensures forall i :: 0 <= i < |rows| ==> rows[i].key in keys && store[rows[i].key] == rows[i].value
    ensures forall i, j :: 0 <= i < j < |rows| ==> rows[i].key != rows[j].key
    ensures forall k :: k in keys ==> exists i :: 0 <= i < |rows| && rows[i].key == k
    decreases keys
  {
    if keys == {} {
      rows := [];
    } else {
      assert (forall k :: k !in keys) ==> keys == {};
      var k :| k in keys;
      var rest := SomeOrder(keys - {k}, store);
      rows := AddLast(rest, keys - {k}, store, k);
      assert keys - {k} + {k} == keys;
    }
  }

  lemma AddLast<V>(rest: seq<Row<V>>, keys: set<Key>, store: map<Key, V>, k: Key) returns (rows: seq<Row<V>>)
    requires k in store && k !in keys && keys <= store.Keys
    requires forall i :: 0 <= i < |rest| ==> rest[i].key in keys && store[rest[i].key] == rest[i].value
    requires forall i, j :: 0 <= i < j < |rest| ==> rest[i].key != rest[j].key
    requires forall q :: q in keys ==> exists i :: 0 <= i < |rest| && rest[i].key == q
    ensures forall i :: 0 <= i < |rows| ==> rows[i].key in keys + {k} && store[rows[i].key] == rows[i].value
    ensures forall i, j :: 0 <= i < j < |rows| ==> rows[i].key != rows[j].key
    ensures forall q :: q in keys + {k} ==> exists i :: 0 <= i < |rows| && rows[i].key == q
    ensures rows == rest + [Row(k, store[k])]
  {
    rows := rest + [Row(k, store[k])];
    forall i, j | 0 <= i < j < |rows| ensures rows[i].key != rows[j].key {
      assert rest[i].key in keys;
    }
    forall q | q in keys + {k} ensures exists i :: 0 <= i < |rows| && rows[i].key == q {
      if q == k {
        assert rows[|rest|].key == q;
      } else {
        var i :| 0 <= i < |rest| && rest[i].key == q;
        assert rows[i].key == q;
      }
    }
  }

  /** Some listing of a prefix ends with the given key. */
  lemma ListingEndsWith<V>(store: map<Key, V>, full: Key, k: Key) returns (rows: seq<Row<V>>)
    requires full != []
    requires full[|full| - 1] < 255 && k in store && full <= k
    ensures Lists(rows, store, full, RangeEnd(full)) && rows != [] && rows[|rows| - 1] == Row(k, store[k])
  {
    RangeIsExact(full);
    var keys := set q | q in store && InRange(q, full, RangeEnd(full));
    assert k in keys;
    var rest := SomeOrder(keys - {k}, store);
    rows := AddLast(rest, keys - {k}, store, k);
    assert keys - {k} + {k} == keys;
    forall q | q in store && InRange(q, full, RangeEnd(full)) ensures exists i :: 0 <= i < |rows| && rows[i].key == q {
      assert q in keys;
    }
  }

  /** Every row order gives back the dictionary. */
  ghost predicate AlwaysRestores(site: Site, prefix: Key, end: map<Key, string>, data: map<Key, string>) {
    var full := site.Full(prefix);
    forall rows: seq<Row<string>> :: Lists(rows, end, full, RangeEnd(full)) ==> Restored(site, prefix, Some(rows)) == Dictionary(data)
  }

  /** An old key that is not covered shows in a listing that ends with it. */
  lemma UncoveredShows(site: Site, store: map<Key, string>, prefix: Key, end: map<Key, string>, data: map<Key, string>, k: Key)
    requires WellPrefixed(site, prefix, []) && Merges(store, end, site.Full(prefix), data)
    requires k in store && site.Full(prefix) <= k && !CoveredKey(store, site.Full(prefix), data, k)
    ensures !AlwaysRestores(site, prefix, end, data)
  {
    var full := site.Full(prefix);
    assert !IsEntry(full, data, k);
    assert k in end && end[k] == store[k];
    var rows := ListingEndsWith(end, full, k);
    LastRowTells(site, prefix, rows, data);
  }

  lemma CoveredRestores(site: Site, prefix: Key, store: map<Key, string>, end: map<Key, string>, data: map<Key, string>)
    requires Merges(store, end, site.Full(prefix), data) && Covers(store, site.Full(prefix), data)
    requires WellPrefixed(site, prefix, [])
    ensures AlwaysRestores(site, prefix, end, data)
  {
    forall rows: seq<Row<string>> | Lists(rows, end, site.Full(prefix), RangeEnd(site.Full(prefix)))
      ensures Restored(site, prefix, Some(rows)) == Dictionary(data)
    {
      CoveredListing(site, prefix, store, end, data, rows);
    }
  }

  lemma CoveredListing(
      site: Site, prefix: Key, store: map<Key, string>, end: map<Key, string>, data: map<Key, string>, rows: seq<Row<string>>)
    requires Merges(store, end, site.Full(prefix), data) && Covers(store, site.Full(prefix), data)
    requires WellPrefixed(site, prefix, [])
    requires Lists(rows, end, site.Full(prefix), RangeEnd(site.Full(prefix)))
    ensures Restored(site, prefix, Some(rows)) == Dictionary(data)
  {
    assert Collect(rows, Cut(site.Full(prefix))) == data by {
      RangeReadIsPrefixRead(rows, end, site.Full(prefix));
      CoveredReadsBack(rows, store, end, site.Full(prefix), data);
    }
    CollectedIsRestored(site, prefix, rows, data);
  }

  /** A dictionary that does not hold the last row is not what the rows give back. */
  lemma LastRowTells(site: Site, prefix: Key, rows: seq<Row<string>>, data: map<Key, string>)
    requires rows != []
    requires var last := rows[|rows| - 1];
             var n := NameIn(site.Full(prefix), last.key);
             n !in data || data[n] != last.value
    ensures Restored(site, prefix, Some(rows)) != Dictionary(data)
  {
    LastRowWins(rows, Cut(site.Full(prefix)));
    CollectedIsRestored(site, prefix, rows, data);
  }

  /**
   The save also reports success when the deletion was refused. Then the dictionary comes back, whatever
   the order of the rows, if and only if every old key with the prefix is covered.
   */
  lemma RefusedWipe(site: Site, store: map<Key, string>, prefix: Key, data: map<Key, string>, names: seq<Key>, replies: seq<Reply>)
    requires Orders(names, data) && |replies| == |names| && WellPrefixed(site, prefix, names)
    requires AllDone(replies)
    ensures AlwaysRestores(site, prefix, Persisted(site, store, prefix, data, names, true, Refused, replies), data)
            <==> Covers(store, site.Full(prefix), data)
  {
    WrittenAll(replies);
    assert names[..|names|] == names;
    RefusedWipeMerges(site, store, prefix, data, names);
    var end := PutAll(site, store, prefix, data, names);
    assert Persisted(site, store, prefix, data, names, true, Refused, replies) == end;
    var full := site.Full(prefix);
    if Covers(store, full, data) {
      CoveredRestores(site, prefix, store, end, data);
    } else {
      var k :| k in store && full <= k && !CoveredKey(store, full, data, k);
      UncoveredShows(site, store, prefix, end, data, k);
    }
  }

  // ---------------------------------------------------------------------------------------------
  // Failures
  // ---------------------------------------------------------------------------------------------

  /** Without the lock nothing is deleted or written; a failed read and no rows restore nothing. */
  lemma NothingHappens<V>(site: Site, store: map<Key, V>, prefix: Key, data: map<Key, V>, names: seq<Key>,
                          wipe: Reply, replies: seq<Reply>)
    requires Orders(names, data) && |replies| == |names|
    ensures Persisted(site, store, prefix, data, names, false, wipe, replies) == store
    ensures Restored<V>(site, prefix, None) == None && Restored<V>(site, prefix, Some([])) == None
  {
  }

  // ---------------------------------------------------------------------------------------------
  // Keys as text
  // ---------------------------------------------------------------------------------------------

  /** The bytes of a character, by its number (section 3 of RFC 3629). */
  function Encoded(c: nat): Key
    requires c < 0x11_0000
  {
    if c < 0x80 then [c as byte]
    else if c < 0x800 then [(0xc0 + c / 0x40) as byte, (0x80 + c % 0x40) as byte]
    else if c < 0x1_0000 then [(0xe0 + c / 0x1000) as byte, (0x80 + c / 0x40 % 0x40) as byte, (0x80 + c % 0x40) as byte]
    else [(0xf0 + c / 0x4_0000) as byte, (0x80 + c / 0x1000 % 0x40) as byte, (0x80 + c / 0x40 % 0x40) as byte, (0x80 + c % 0x40) as byte]
  }

  predicate IsText(s: seq<nat>) {
    forall i | 0 <= i < |s| :: s[i] < 0x11_0000
  }

  function EncodedText(s: seq<nat>): Key
    requires IsText(s)
  {
    if s == [] then [] else Encoded(s[0]) + EncodedText(s[1..])
  }

  lemma WidthOfEncoded(c: nat)
    requires c < 0x11_0000
    ensures Width(Encoded(c)[0]) == |Encoded(c)|
  {
  }

  lemma TailOfText(s: seq<nat>)
    requires IsText(s) && s != []
    ensures EncodedText(s) != [] && Width(EncodedText(s)[0]) <= |EncodedText(s)| && Tail(EncodedText(s)) == EncodedText(s[1..])
  {
    WidthOfEncoded(s[0]);
    assert EncodedText(s)[0] == Encoded(s[0])[0];
  }

  /**
   On encoded text, lengths are counted and keys are sliced by characters: slicing the encoding is encoding
   the slice, whatever the widths of the characters.
   */
  lemma {:induction false} SlicingIsByCharacters(s: seq<nat>, n: nat)
    requires IsText(s)
    ensures Whole(EncodedText(s)) && Chars(EncodedText(s)) == |s|
    ensures From(EncodedText(s), n) == EncodedText(if n <= |s| then s[n..] else [])
    decreases |s|
  {
    if s != [] {
      TailOfText(s);
      SlicingIsByCharacters(s[1..], if n == 0 then 0 else n - 1);
      if 0 < n <= |s| { assert s[1..][n - 1..] == s[n..]; }
    }
  }
}
