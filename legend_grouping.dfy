/** The legend items of the harmonizer: records folded by variable or by version, or
    one item per record. */
module LegendGrouping {
  import opened HarmonizerTypes

  // ---------------------------------------------------------------------------
  // Grouping keys, their first-seen order and the members of each key
  // ---------------------------------------------------------------------------

  /** The key a grouped mode folds records by. */
  function Key(p: DataPoint, mode: Mode): (r: string)
    requires mode.Grouped()
  {
    match mode
    case Variable => p.variable
    case Version => p.version
  }

  /** The key of every record, in input order. */
  function KeysOf(data: seq<DataPoint>, mode: Mode): (r: seq<string>)
    requires mode.Grouped()
  {
    seq(|data|, i requires 0 <= i < |data| => Key(data[i], mode))
  }

  /** The distinct keys among the first `n`, in the order each is first seen: the
      order in which the reduce creates them in its dictionary. */
  function KeyOrder(keys: seq<string>, n: nat): (r: seq<string>)
    requires n <= |keys|
  {
    if n == 0 then []
    else
      var ks := KeyOrder(keys, n - 1);
      if keys[n - 1] in ks then ks else ks + [keys[n - 1]]
  }

  /** The positions among the first `n` that carry `key`, in input order: the list the
      reduce pushes those records onto. */
  function Members(keys: seq<string>, n: nat, key: string): (r: seq<nat>)
    requires n <= |keys|
  {
    if n == 0 then []
    else Members(keys, n - 1, key) + (if keys[n - 1] == key then [n - 1] else [])
  }

  /** The reduce's dictionary after the first `n` records: each key seen so far
      mapped to its members. */
  function GroupMap(keys: seq<string>, n: nat): (r: map<string, seq<nat>>)
    requires n <= |keys|
  {
    map k | k in KeyOrder(keys, n) :: Members(keys, n, k)
  }

  /** No key is listed twice. */
  predicate Distinct(ks: seq<string>) {
    forall a, b :: 0 <= a < b < |ks| ==> ks[a] != ks[b]
  }

  /** The key order holds exactly the keys among the first `n`, each once. */
  lemma {:induction false} KeyOrderContents(keys: seq<string>, n: nat)
    requires n <= |keys|
    ensures Distinct(KeyOrder(keys, n))
    ensures forall k :: k in KeyOrder(keys, n) <==> k in keys[..n]
  {
    if n > 0 {
      KeyOrderContents(keys, n - 1);
      assert keys[..n] == keys[..n - 1] + [keys[n - 1]];
    }
  }

  /** Keys appear in first-seen order: any occurrence of a later key is preceded by
      an occurrence of each earlier key. */
  lemma {:induction false} KeyOrderFirstSeen(keys: seq<string>, n: nat, a: nat, b: nat, j: nat)
    requires n <= |keys| && a < b < |KeyOrder(keys, n)| && j < n
    requires keys[j] == KeyOrder(keys, n)[b]
    ensures KeyOrder(keys, n)[a] in keys[..j]
  {
    var ks := KeyOrder(keys, n);
    var ks' := KeyOrder(keys, n - 1);
    KeyOrderContents(keys, n - 1);
    assert ks[..|ks'|] == ks';
    assert ks[a] == ks'[a];
    if j == n - 1 && b == |ks'| {
      // the last key is new: every earlier key occurred before it
      assert ks'[a] in ks';
      assert keys[..n - 1] == keys[..j];
    } else {
      // the key at j was already known before position n - 1
      var i := j;
      if j == n - 1 {
        assert ks[b] in keys[..n - 1];
        i :| 0 <= i < n - 1 && keys[i] == ks[b];
      } else {
        assert keys[..n - 1][j] == keys[j];
      }
      assert b < |ks'| && keys[i] == ks'[b];
      KeyOrderFirstSeen(keys, n - 1, a, b, i);
      assert keys[..i] == keys[..j][..i];
    }
  }

  /** Each key's member list is exactly the positions carrying it, in increasing order. */
  lemma {:induction false} MembersContents(keys: seq<string>, n: nat, key: string)
    requires n <= |keys|
    ensures var ms := Members(keys, n, key);
      && (forall t :: 0 <= t < |ms| ==> ms[t] < n && keys[ms[t]] == key)
      && (forall s, t :: 0 <= s < t < |ms| ==> ms[s] < ms[t])
      && (forall i :: 0 <= i < n && keys[i] == key ==> i in ms)
  {
    if n > 0 {
      MembersContents(keys, n - 1, key);
    }
  }

  /** A key not seen among the first `n` has no members yet. */
  lemma {:induction false} UnseenKeyNoMembers(keys: seq<string>, n: nat, key: string)
    requires n <= |keys| && key !in KeyOrder(keys, n)
    ensures Members(keys, n, key) == []
  {
    if n > 0 {
      UnseenKeyNoMembers(keys, n - 1, key);
    }
  }

  /** A key that was seen has at least one member, and its first member is its first
      occurrence. */
  lemma MembersOfSeenKey(keys: seq<string>, n: nat, key: string)
    requires n <= |keys| && key in KeyOrder(keys, n)
    ensures var ms := Members(keys, n, key);
      |ms| > 0 && ms[0] < n && key !in keys[..ms[0]]
  {
    KeyOrderContents(keys, n);
    MembersContents(keys, n, key);
    var ms := Members(keys, n, key);
    var i :| 0 <= i < n && keys[i] == key;
    assert i in ms;
    assert forall t :: 0 <= t < |ms| ==> ms[0] <= ms[t];
  }

  /** Reading position `n` creates its key's list if the key is new, then appends `n`
      to that list; no other key changes. */
  lemma GroupMapStep(keys: seq<string>, n: nat)
    requires n < |keys|
    ensures var g := GroupMap(keys, n);
      var key := keys[n];
      var created := if key in g then g else g[key := []];
      GroupMap(keys, n + 1) == created[key := created[key] + [n]]
  {
    var g := GroupMap(keys, n);
    var key := keys[n];
    var created := if key in g then g else g[key := []];
    var g' := GroupMap(keys, n + 1);
    assert g'.Keys == created[key := created[key] + [n]].Keys;
    forall k | k in g' ensures g'[k] == created[key := created[key] + [n]][k] {
      if k != key {
        assert k in KeyOrder(keys, n);
      } else if key !in g {
        UnseenKeyNoMembers(keys, n, key);
      }
    }
  }

  // ---------------------------------------------------------------------------
  // The reduce, step by step
  // ---------------------------------------------------------------------------

  /** The `reduce` of a grouped mode: walks the records once, creating an empty list
      the first time a key is seen and appending each record's position to its key's
      list. `order` records the dictionary's key insertion order. */
  method GroupEntries(data: seq<DataPoint>, mode: Mode) returns (order: seq<string>, groups: map<string, seq<nat>>)
    requires mode.Grouped()
    ensures order == KeyOrder(KeysOf(data, mode), |data|)
    ensures groups == GroupMap(KeysOf(data, mode), |data|)
  {
    ghost var keys := KeysOf(data, mode);
    order, groups := [], map[];
    var n := 0;
    while n < |data|
      invariant n <= |data|
      invariant order == KeyOrder(keys, n)
      invariant groups == GroupMap(keys, n)
    {
      var key := Key(data[n], mode);
      GroupMapStep(keys, n);
      if key !in groups {
        groups := groups[key := []];
        order := order + [key];
      }
      groups := groups[key := groups[key] + [n]];
      n := n + 1;
    }
  }

  // ---------------------------------------------------------------------------
  // Projection of the dictionary into legend items
  // ---------------------------------------------------------------------------

  /** One dictionary entry: a key and the positions of its records. */
  datatype Entry = Entry(key: string, members: seq<nat>)

  /** Entries that the projection can read: every entry has a first member, and every
      member is a position in `data`. */
  predicate EntriesValid(data: seq<DataPoint>, entries: seq<Entry>) {
    forall j :: 0 <= j < |entries| ==>
      && |entries[j].members| > 0
      && forall t :: 0 <= t < |entries[j].members| ==> entries[j].members[t] < |data|
  }

  /** `Object.entries` of the finished dictionary, in key insertion order. */
  function Entries(data: seq<DataPoint>, mode: Mode): (r: seq<Entry>)
    requires mode.Grouped()
  {
    var keys := KeysOf(data, mode);
    var ks := KeyOrder(keys, |data|);
    seq(|ks|, j requires 0 <= j < |ks| => Entry(ks[j], Members(keys, |data|, ks[j])))
  }

  /** Every key of the finished dictionary has a first member, and all its members
      are positions in `data`. */
  lemma EntriesAreValid(data: seq<DataPoint>, mode: Mode)
    requires mode.Grouped()
    ensures EntriesValid(data, Entries(data, mode))
  {
    var es := Entries(data, mode);
    forall j | 0 <= j < |es|
      ensures |es[j].members| > 0 && forall t :: 0 <= t < |es[j].members| ==> es[j].members[t] < |data|
    {
      MembersOfSeenKey(KeysOf(data, mode), |data|, es[j].key);
      MembersContents(KeysOf(data, mode), |data|, es[j].key);
    }
  }

  /** The legend item for one dictionary entry: by variable it keeps the first
      member's colour only, by version every member's colour. */
  function EntryItem(data: seq<DataPoint>, mode: Mode, e: Entry): (r: LegendItem)
    requires mode.Grouped() && |e.members| > 0
    requires forall t :: 0 <= t < |e.members| ==> e.members[t] < |data|
  {
    var ids := seq(|e.members|, t requires 0 <= t < |e.members| => SeriesIdOf(data, e.members[t]));
    match mode
    case Variable =>
      LegendItem(e.key, e.key, [data[e.members[0]].color], "Add variable icon - " + e.key, ids)
    case Version =>
      LegendItem(e.key, e.key, seq(|e.members|, t requires 0 <= t < |e.members| => data[e.members[t]].color),
                 "Add version icon - " + e.key, ids)
  }

  /** `Object.entries(groups).map(...)`: one legend item per entry, in entry order. */
  function Project(data: seq<DataPoint>, mode: Mode, entries: seq<Entry>): (r: seq<LegendItem>)
    requires mode.Grouped() && EntriesValid(data, entries)
    ensures |r| == |entries|
    ensures forall j :: 0 <= j < |r| ==>
      r[j].id == r[j].labelText == entries[j].key && |r[j].seriesIds| == |entries[j].members|
  {
    seq(|entries|, j requires 0 <= j < |entries| => EntryItem(data, mode, entries[j]))
  }

  /** The item of record `i` when nothing is folded. */
  function PairItem(data: seq<DataPoint>, i: nat): (r: LegendItem)
    requires i < |data|
  {
    LegendItem(data[i].variable + "-" + data[i].version, PairName(data[i]), [data[i].color],
               PairName(data[i]), [SeriesIdOf(data, i)])
  }

  /** The legend items for `data` under `mode`. */
  function Group(data: seq<DataPoint>, mode: Mode): (r: seq<LegendItem>) {
    match mode
    case VariableVersion => seq(|data|, i requires 0 <= i < |data| => PairItem(data, i))
    case _ => EntriesAreValid(data, mode); Project(data, mode, Entries(data, mode))
  }

  /** legendItems: the grouped modes reduce and then project; the per-record mode
      maps each record to its own item. */
  method LegendItems(data: seq<DataPoint>, mode: Mode) returns (items: seq<LegendItem>)
    ensures items == Group(data, mode)
  {
    if mode == VariableVersion {
      items := seq(|data|, i requires 0 <= i < |data| => PairItem(data, i));
    } else {
      var order, groups := GroupEntries(data, mode);
      var entries := seq(|order|, j requires 0 <= j < |order| => Entry(order[j], groups[order[j]]));
      assert entries == Entries(data, mode);
      EntriesAreValid(data, mode);
      items := Project(data, mode, entries);
    }
  }
}
