/** The parameter registry: a hash index over rows, its simple meaning, and copy-on-write rescaling. */
module Registry {
  import opened Wrappers

  datatype Rwes = R | W | RW | RWE | RWES

  datatype DataType = U8 | U16 | S16 | U32 | S32 | Float | Text | Packed

  datatype Spec = Spec(
    id: int, name: string, aliases: set<string>, dataType: DataType, rwes: Rwes,
    defaultInstance: int, maxInstance: int, relativeAddr: int, registerCount: nat, highWordFirst: bool,
    rangeMin: Option<real>, rangeMax: Option<real>, scale: real, decimalRegister: Option<int>)

  datatype Target = Name(name: string) | Id(id: int)

  datatype Invalid = UnknownId | UnknownName | NegativePlaces | InstanceOutOfRange | ReadOnly | ValueOutOfRange

  /** Case folding of names; nothing about it is needed. */
  type Fold = string -> string

  // ---------------------------------------------------------------- loading

  /** Row `i` is the first with its id. */
  predicate FirstOfItsId(rows: seq<Spec>, i: nat)
    requires i < |rows|
  {
    forall j :: 0 <= j < i ==> rows[j].id != rows[i].id
  }

  predicate UniqueIds(rows: seq<Spec>)
  {
    forall i, j :: 0 <= i < j < |rows| ==> rows[i].id != rows[j].id
  }

  /** The loadable rows without those whose id came before. */
  function Deduplicated(rows: seq<Spec>): seq<Spec>
  {
    if rows == [] then []
    else
      var n := |rows| - 1;
      Deduplicated(rows[..n]) + if FirstOfItsId(rows, n) then [rows[n]] else []
  }

  function Ids(rows: seq<Spec>): set<int>
  {
    set r | r in rows :: r.id
  }

  lemma DeduplicatedSnoc(rows: seq<Spec>, r: Spec)
    ensures Deduplicated(rows + [r]) == Deduplicated(rows) + if r.id in Ids(rows) then [] else [r]
    ensures Ids(rows + [r]) == Ids(rows) + {r.id}
  {
    assert (rows + [r])[..|rows|] == rows;
    if r.id in Ids(rows) {
      var x :| x in rows && x.id == r.id;
      var j :| 0 <= j < |rows| && rows[j] == x;
      assert (rows + [r])[j].id == r.id;
    } else {
      forall j | 0 <= j < |rows| ensures (rows + [r])[j].id != r.id { assert rows[j] in rows; }
    }
    forall k ensures k in Ids(rows + [r]) <==> k in Ids(rows) + {r.id} {
      if k in Ids(rows) { var x :| x in rows && x.id == k; assert x in rows + [r]; }
      assert r in rows + [r];
    }
  }

  /** No id is lost and none is left twice. */
  lemma {:induction false} DeduplicatedIds(rows: seq<Spec>)
    ensures Ids(Deduplicated(rows)) == Ids(rows) && UniqueIds(Deduplicated(rows))
  {
    if rows != [] {
      var front, r := rows[..|rows| - 1], rows[|rows| - 1];
      assert rows == front + [r];
      DeduplicatedIds(front);
      DeduplicatedSnoc(front, r);
      hide Deduplicated, Ids;
      if r.id !in Ids(front) { UniqueSnoc(Deduplicated(front), r); }
    }
  }

  lemma UniqueSnoc(rows: seq<Spec>, r: Spec)
    requires UniqueIds(rows) && r.id !in Ids(rows)
    ensures UniqueIds(rows + [r]) && Ids(rows + [r]) == Ids(rows) + {r.id}
  {
    forall i | 0 <= i < |rows| ensures rows[i].id != r.id { assert rows[i] in rows; }
    DeduplicatedSnoc(rows, r);
  }

  /** The rows kept are exactly the first ones of their ids. */
  lemma {:induction false} DeduplicatedKeepsFirsts(rows: seq<Spec>, s: Spec)
    ensures s in Deduplicated(rows) <==> exists i :: 0 <= i < |rows| && rows[i] == s && FirstOfItsId(rows, i)
  {
    if rows != [] {
      var n := |rows| - 1;
      var front := rows[..n];
      DeduplicatedKeepsFirsts(front, s);
      forall i | 0 <= i < n ensures FirstOfItsId(front, i) <==> FirstOfItsId(rows, i) {}
      hide FirstOfItsId;
      if s in Deduplicated(front) {
        var i :| 0 <= i < n && front[i] == s && FirstOfItsId(front, i);
        assert rows[i] == s && FirstOfItsId(rows, i);
      }
      if i :| 0 <= i < n && rows[i] == s && FirstOfItsId(rows, i) {
        assert front[i] == s && FirstOfItsId(front, i);
      }
    }
  }

  lemma LoadableStep(raw: seq<Option<Spec>>, i: nat)
    requires i < |raw|
    ensures Loadable(raw[..i + 1]) == if raw[i].Some? then Loadable(raw[..i]) + [raw[i].value] else Loadable(raw[..i])
  {
    assert raw[..i + 1][..i] == raw[..i];
  }

  /** The loader; an unloadable row is None. */
  method LoadParameters(raw: seq<Option<Spec>>) returns (out: seq<Spec>)
    ensures out == Deduplicated(Loadable(raw))
  {
    hide Deduplicated, Ids, Loadable;
    out := [];
    var seen: set<int> := {};
    NothingLoaded(raw);
    for i := 0 to |raw|
      invariant out == Deduplicated(Loadable(raw[..i]))
      invariant seen == Ids(Loadable(raw[..i]))
    {
      LoadableStep(raw, i);
      if raw[i].Some? {
        DeduplicatedSnoc(Loadable(raw[..i]), raw[i].value);
        if raw[i].value.id !in seen {
          seen := seen + {raw[i].value.id};
          out := out + [raw[i].value];
        }
      }
    }
    assert raw[..|raw|] == raw;
  }

  lemma NothingLoaded(raw: seq<Option<Spec>>)
    ensures Loadable(raw[..0]) == Deduplicated([]) == [] && Ids([]) == {}
  {
  }

  function Loadable(raw: seq<Option<Spec>>): seq<Spec>
  {
    if raw == [] then []
    else Loadable(raw[..|raw| - 1]) + if raw[|raw| - 1].Some? then [raw[|raw| - 1].value] else []
  }

  // ---------------------------------------------------------------- names, aliases and overrides

  /** The override of an id: a list of pairs with distinct ids. */
  function Override(overrides: seq<(int, string)>, id: int): Option<string>
  {
    if overrides == [] then None
    else if overrides[0].0 == id then Some(overrides[0].1)
    else Override(overrides[1..], id)
  }

  function NameOf(spec: Spec, overrides: seq<(int, string)>): string
  {
    var o := Override(overrides, spec.id);
    if o.Some? && o.value != "" then o.value else spec.name
  }

  /** A row under its public name, with the aliases of that name and the name it had before. */
  function Rebound(spec: Spec, aliases: map<string, string>, overrides: seq<(int, string)>): Spec
  {
    var name := NameOf(spec, overrides);
    var found := (set a | a in aliases && aliases[a] == name) + if name != spec.name then {spec.name} else {};
    if name != spec.name || found != {} then spec.(name := name, aliases := found) else spec
  }

  lemma ReboundKeeps(spec: Spec, aliases: map<string, string>, overrides: seq<(int, string)>)
    ensures var r := Rebound(spec, aliases, overrides); r == spec.(name := r.name, aliases := r.aliases)
  {
  }

  /** Who owns a folded override name; the last of several ids claiming it. */
  function Owners(fold: Fold, overrides: seq<(int, string)>): map<string, int>
  {
    if overrides == [] then map[]
    else Owners(fold, overrides[..|overrides| - 1])[fold(overrides[|overrides| - 1].1) := overrides[|overrides| - 1].0]
  }

  /** A row whose name an override gave to another row is not indexed by name. */
  predicate Named(fold: Fold, owners: map<string, int>, row: Spec)
  {
    var key := fold(row.name);
    key in owners ==> owners[key] == row.id
  }

  predicate HasAlias(fold: Fold, row: Spec, key: string)
  {
    exists a :: a in row.aliases && fold(a) == key
  }

  // ---------------------------------------------------------------- the index

  datatype Index = Index(byId: map<int, Spec>, byName: map<string, Spec>)

  /** The index of the rows so far with one more row. */
  function WithRow(fold: Fold, owners: map<string, int>, index: Index, row: Spec): Index
  {
    var byId := index.byId[row.id := row];
    if !Named(fold, owners, row) then Index(byId, index.byName)
    else Index(byId, WithKeys(index.byName[fold(row.name) := row], Folded(fold, row.aliases), row))
  }

  function Folded(fold: Fold, names: set<string>): set<string>
  {
    set a <- names :: fold(a)
  }

  /** Adds `row` under the keys not taken yet. */
  function WithKeys(m: map<string, Spec>, keys: set<string>, row: Spec): (r: map<string, Spec>)
    ensures r.Keys == m.Keys + keys
    ensures forall k :: k in r ==> r[k] == if k in m then m[k] else row
  {
    map k | k in m.Keys + keys :: if k in m then m[k] else row
  }

  lemma SameMap<K, V>(a: map<K, V>, b: map<K, V>)
    requires a.Keys == b.Keys && forall k :: k in a ==> a[k] == b[k]
    ensures a == b
  {
  }

  function IndexOf(fold: Fold, owners: map<string, int>, rows: seq<Spec>): Index
  {
    if rows == [] then Index(map[], map[])
    else WithRow(fold, owners, IndexOf(fold, owners, rows[..|rows| - 1]), rows[|rows| - 1])
  }

  function Lookup(fold: Fold, index: Index, target: Target): Result<Spec, Invalid>
  {
    match target
    case Id(id) => if id in index.byId then Ok(index.byId[id]) else Err(UnknownId)
    case Name(name) => if fold(name) in index.byName then Ok(index.byName[fold(name)]) else Err(UnknownName)
  }

  // ---------------------------------------------------------------- what the index means

  predicate CanonicalAt(fold: Fold, owners: map<string, int>, rows: seq<Spec>, key: string, i: int)
    requires 0 <= i < |rows|
  {
    Named(fold, owners, rows[i]) && fold(rows[i].name) == key
  }

  predicate AliasAt(fold: Fold, owners: map<string, int>, rows: seq<Spec>, key: string, i: int)
    requires 0 <= i < |rows|
  {
    Named(fold, owners, rows[i]) && HasAlias(fold, rows[i], key)
  }

  /**
   * Row `i` is what a plain scan finds for a name: the last row so named that may carry the name,
   * else the first that has it as an alias.
   */
  predicate ScanFinds(fold: Fold, owners: map<string, int>, rows: seq<Spec>, key: string, i: int)
  {
    && 0 <= i < |rows|
    && if exists j :: 0 <= j < |rows| && CanonicalAt(fold, owners, rows, key, j) then
         CanonicalAt(fold, owners, rows, key, i) && forall j :: i < j < |rows| ==> !CanonicalAt(fold, owners, rows, key, j)
       else
         AliasAt(fold, owners, rows, key, i) && forall j :: 0 <= j < i ==> !AliasAt(fold, owners, rows, key, j)
  }

  lemma PrefixAt(fold: Fold, owners: map<string, int>, rows: seq<Spec>, key: string, n: nat)
    requires n <= |rows|
    ensures forall i :: 0 <= i < n ==>
              && (CanonicalAt(fold, owners, rows[..n], key, i) <==> CanonicalAt(fold, owners, rows, key, i))
              && (AliasAt(fold, owners, rows[..n], key, i) <==> AliasAt(fold, owners, rows, key, i))
  {
  }

  lemma WithRowAt(fold: Fold, owners: map<string, int>, index: Index, row: Spec, key: string)
    ensures var after := WithRow(fold, owners, index, row).byName;
      if Named(fold, owners, row) && fold(row.name) == key then key in after && after[key] == row
      else if key in index.byName then key in after && after[key] == index.byName[key]
      else if Named(fold, owners, row) && HasAlias(fold, row, key) then key in after && after[key] == row
      else key !in after
  {
  }

  lemma FrontScan(fold: Fold, owners: map<string, int>, rows: seq<Spec>, key: string, i: nat)
    requires rows != [] && i < |rows| - 1 && !CanonicalAt(fold, owners, rows, key, |rows| - 1)
    ensures ScanFinds(fold, owners, rows[..|rows| - 1], key, i) <==> ScanFinds(fold, owners, rows, key, i)
  {
    hide CanonicalAt, AliasAt;
    PrefixAt(fold, owners, rows, key, |rows| - 1);
  }

  /** Neither named nor an alias anywhere. */
  predicate Unknown(fold: Fold, owners: map<string, int>, rows: seq<Spec>, key: string)
  {
    forall i :: 0 <= i < |rows| ==> !CanonicalAt(fold, owners, rows, key, i) && !AliasAt(fold, owners, rows, key, i)
  }

  lemma {:induction false} IndexFinds(fold: Fold, owners: map<string, int>, rows: seq<Spec>, key: string)
    ensures var found := IndexOf(fold, owners, rows).byName;
      if key in found then exists i :: 0 <= i < |rows| && ScanFinds(fold, owners, rows, key, i) && found[key] == rows[i]
      else Unknown(fold, owners, rows, key)
  {
    hide WithRow, HasAlias, Named, CanonicalAt, AliasAt, ScanFinds, Unknown;
    var n := |rows| - 1;
    if n < 0 {
      UnknownNone(fold, owners, key);
    } else {
      var front := rows[..n];
      var index := IndexOf(fold, owners, front);
      IndexFinds(fold, owners, front, key);
      WithRowAt(fold, owners, index, rows[n], key);
      if key in index.byName {
        var i :| 0 <= i < n && ScanFinds(fold, owners, front, key, i) && index.byName[key] == front[i];
        LastRow(fold, owners, rows, key, i);
      } else {
        LastRow(fold, owners, rows, key, n);
      }
    }
  }

  lemma UnknownNone(fold: Fold, owners: map<string, int>, key: string)
    ensures Unknown(fold, owners, [], key)
  {
  }

  /** What one more row changes for the scan. */
  lemma LastRow(fold: Fold, owners: map<string, int>, rows: seq<Spec>, key: string, i: int)
    requires rows != []
    ensures var n, front := |rows| - 1, rows[..|rows| - 1];
      && (ScanFinds(fold, owners, front, key, i) ==> 0 <= i < n)
      && (Named(fold, owners, rows[n]) && fold(rows[n].name) == key ==> ScanFinds(fold, owners, rows, key, n))
      && (!(Named(fold, owners, rows[n]) && fold(rows[n].name) == key) && ScanFinds(fold, owners, front, key, i) ==>
            ScanFinds(fold, owners, rows, key, i))
      && (Unknown(fold, owners, front, key) ==>
            if Named(fold, owners, rows[n]) && (fold(rows[n].name) == key || HasAlias(fold, rows[n], key))
            then ScanFinds(fold, owners, rows, key, n)
            else Unknown(fold, owners, rows, key))
  {
    hide Named, HasAlias;
    PrefixAt(fold, owners, rows, key, |rows| - 1);
    if 0 <= i < |rows| - 1 && !CanonicalAt(fold, owners, rows, key, |rows| - 1) { FrontScan(fold, owners, rows, key, i); }
  }

  lemma ScanIsUnique(fold: Fold, owners: map<string, int>, rows: seq<Spec>, key: string, i: int, j: int)
    requires ScanFinds(fold, owners, rows, key, i) && ScanFinds(fold, owners, rows, key, j)
    ensures i == j
  {
    hide CanonicalAt, AliasAt;
  }

  lemma ScanNeedsRow(fold: Fold, owners: map<string, int>, rows: seq<Spec>, key: string, i: int)
    requires ScanFinds(fold, owners, rows, key, i)
    ensures !Unknown(fold, owners, rows, key)
  {
    hide CanonicalAt, AliasAt;
  }

  /** The hash index finds a row exactly when the scan does, and the same row. */
  lemma IndexIsScan(fold: Fold, owners: map<string, int>, rows: seq<Spec>, key: string)
    ensures var found := IndexOf(fold, owners, rows).byName;
      && (key in found <==> exists i :: ScanFinds(fold, owners, rows, key, i))
      && forall i :: ScanFinds(fold, owners, rows, key, i) ==> 0 <= i < |rows| && key in found && found[key] == rows[i]
  {
    hide CanonicalAt, AliasAt, Unknown, IndexOf;
    var found := IndexOf(fold, owners, rows).byName;
    IndexFinds(fold, owners, rows, key);
    forall i | ScanFinds(fold, owners, rows, key, i) ensures 0 <= i < |rows| && key in found && found[key] == rows[i] {
      ScanNeedsRow(fold, owners, rows, key, i);
      var j :| 0 <= j < |rows| && ScanFinds(fold, owners, rows, key, j) && found[key] == rows[j];
      ScanIsUnique(fold, owners, rows, key, i, j);
    }
  }

  /** An id finds its row, if any row has it. */
  lemma {:induction false} IdFinds(fold: Fold, owners: map<string, int>, rows: seq<Spec>, id: int)
    ensures var byId := IndexOf(fold, owners, rows).byId;
      && (id in byId <==> id in Ids(rows))
      && (id in byId ==> byId[id] in rows && byId[id].id == id)
  {
    if rows != [] {
      var front, r := rows[..|rows| - 1], rows[|rows| - 1];
      assert rows == front + [r];
      IdFinds(fold, owners, front, id);
      DeduplicatedSnoc(front, r);
    }
  }

  lemma SameRow(rows: seq<Spec>, a: Spec, b: Spec)
    requires UniqueIds(rows) && a in rows && b in rows && a.id == b.id
    ensures a == b
  {
    var i :| 0 <= i < |rows| && rows[i] == a;
    var j :| 0 <= j < |rows| && rows[j] == b;
  }

  /** Whatever a name or id resolves to is a row, and resolving that row's id gives it again. */
  lemma ResolvingTwice(fold: Fold, owners: map<string, int>, rows: seq<Spec>, target: Target)
    requires UniqueIds(rows)
    ensures var index := IndexOf(fold, owners, rows);
      Lookup(fold, index, target).Ok? ==>
        && Lookup(fold, index, target).value in rows
        && Lookup(fold, index, Id(Lookup(fold, index, target).value.id)) == Lookup(fold, index, target)
  {
    hide IndexOf;
    var index := IndexOf(fold, owners, rows);
    var r := Lookup(fold, index, target);
    if r.Ok? {
      if target.Name? { IndexFinds(fold, owners, rows, fold(target.name)); } else { IdFinds(fold, owners, rows, target.id); }
      IdFinds(fold, owners, rows, r.value.id);
      assert r.value in rows;
      assert r.value.id in Ids(rows);
      SameRow(rows, index.byId[r.value.id], r.value);
    }
  }

  /** A name an override has given away resolves to the override's row, whatever other rows are called. */
  lemma OverrideWins(fold: Fold, owners: map<string, int>, rows: seq<Spec>, key: string, i: nat)
    requires UniqueIds(rows) && i < |rows| && fold(rows[i].name) == key && key in owners && owners[key] == rows[i].id
    ensures key in IndexOf(fold, owners, rows).byName && IndexOf(fold, owners, rows).byName[key] == rows[i]
  {
    assert CanonicalAt(fold, owners, rows, key, i);
    assert ScanFinds(fold, owners, rows, key, i);
    IndexIsScan(fold, owners, rows, key);
  }

  /** Override names that stay apart when folded each belong to their id. */
  predicate Apart(fold: Fold, overrides: seq<(int, string)>)
  {
    forall i, j :: 0 <= i < j < |overrides| ==> overrides[i].0 != overrides[j].0 && fold(overrides[i].1) != fold(overrides[j].1)
  }

  lemma {:induction false} OwnersOf(fold: Fold, overrides: seq<(int, string)>, k: nat)
    requires Apart(fold, overrides) && k < |overrides|
    ensures fold(overrides[k].1) in Owners(fold, overrides) && Owners(fold, overrides)[fold(overrides[k].1)] == overrides[k].0
  {
    if k < |overrides| - 1 { OwnersOf(fold, overrides[..|overrides| - 1], k); }
  }

  lemma {:induction false} OverrideOf(fold: Fold, overrides: seq<(int, string)>, k: nat)
    requires Apart(fold, overrides) && k < |overrides|
    ensures Override(overrides, overrides[k].0) == Some(overrides[k].1)
  {
    if k > 0 { OverrideOf(fold, overrides[1..], k - 1); }
  }

  function ReboundAll(rows: seq<Spec>, aliases: map<string, string>, overrides: seq<(int, string)>): seq<Spec>
  {
    seq(|rows|, i requires 0 <= i < |rows| => Rebound(rows[i], aliases, overrides))
  }

  /** In a registry built from any rows, every override name resolves to the row with its id. */
  lemma OverrideNamesResolve(fold: Fold, rows: seq<Spec>, aliases: map<string, string>, overrides: seq<(int, string)>, k: nat, i: nat)
    requires UniqueIds(rows) && Apart(fold, overrides) && k < |overrides| && overrides[k].1 != ""
    requires i < |rows| && rows[i].id == overrides[k].0
    ensures var r := Lookup(fold, IndexOf(fold, Owners(fold, overrides), ReboundAll(rows, aliases, overrides)), Name(overrides[k].1));
            r.Ok? && r.value == Rebound(rows[i], aliases, overrides) && r.value.id == overrides[k].0 && r.value.name == overrides[k].1
  {
    var bound := ReboundAll(rows, aliases, overrides);
    OwnersOf(fold, overrides, k);
    OverrideOf(fold, overrides, k);
    assert bound[i].name == overrides[k].1;
    OverrideWins(fold, Owners(fold, overrides), bound, fold(overrides[k].1), i);
  }

  /** A row keeps its own name unless an override of its id gives it another, nonempty one. */
  lemma {:induction false} NameUnlessOverridden(spec: Spec, overrides: seq<(int, string)>)
    requires forall k :: 0 <= k < |overrides| && overrides[k].0 == spec.id ==> overrides[k].1 == ""
    ensures NameOf(spec, overrides) == spec.name
  {
    if overrides != [] && overrides[0].0 != spec.id { NameUnlessOverridden(spec, overrides[1..]); }
  }

  /**
   * A row is found by every alias of its public name, and by the name it had before an override, unless some row
   * is called that or an earlier one has that alias too.
   */
  lemma AliasesResolve(fold: Fold, rows: seq<Spec>, aliases: map<string, string>, overrides: seq<(int, string)>, i: nat, a: string)
    requires i < |rows|
    requires var name := NameOf(rows[i], overrides); (a in aliases && aliases[a] == name) || a == rows[i].name != name
    requires var owners, bound := Owners(fold, overrides), ReboundAll(rows, aliases, overrides);
      && Named(fold, owners, bound[i])
      && (forall j :: 0 <= j < |bound| ==> !CanonicalAt(fold, owners, bound, fold(a), j))
      && (forall j :: 0 <= j < i ==> !AliasAt(fold, owners, bound, fold(a), j))
    ensures var r := Lookup(fold, IndexOf(fold, Owners(fold, overrides), ReboundAll(rows, aliases, overrides)), Name(a));
            r.Ok? && r.value == Rebound(rows[i], aliases, overrides) && r.value.name == NameOf(rows[i], overrides)
  {
    var owners, bound := Owners(fold, overrides), ReboundAll(rows, aliases, overrides);
    ReboundAlias(rows[i], aliases, overrides, a);
    assert HasAlias(fold, bound[i], fold(a));
    hide Named, HasAlias, Rebound, Owners;
    assert ScanFinds(fold, owners, bound, fold(a), i);
    IndexIsScan(fold, owners, bound, fold(a));
    ReboundName(rows[i], aliases, overrides);
  }

  lemma ReboundAlias(spec: Spec, aliases: map<string, string>, overrides: seq<(int, string)>, a: string)
    requires var name := NameOf(spec, overrides); (a in aliases && aliases[a] == name) || a == spec.name != name
    ensures a in Rebound(spec, aliases, overrides).aliases
  {
    hide NameOf;
    var name := NameOf(spec, overrides);
    var found := (set b | b in aliases && aliases[b] == name) + if name != spec.name then {spec.name} else {};
    assert a in found;
  }

  lemma ReboundName(spec: Spec, aliases: map<string, string>, overrides: seq<(int, string)>)
    ensures Rebound(spec, aliases, overrides).name == NameOf(spec, overrides)
  {
  }

  // ---------------------------------------------------------------- rescaling

  function Pow10(n: nat): (p: real)
    ensures p > 0.0
  {
    if n == 0 then 1.0 else 10.0 * Pow10(n - 1)
  }

  function ScaleFor(places: nat): real
  {
    1.0 / Pow10(places)
  }

  /** A number times ten, so many times. */
  function TimesTen(x: real, times: nat): real
    decreases times
  {
    if times == 0 then x else TimesTen(10.0 * x, times - 1)
  }

  lemma {:induction false} TimesTenIsPower(x: real, times: nat)
    ensures TimesTen(x, times) == x * Pow10(times)
    decreases times
  {
    if times > 0 { TimesTenIsPower(10.0 * x, times - 1); }
  }

  /** Each decimal place divides the scale by ten, from 1; multiplied by ten once for each place it is 1 again. */
  lemma ScaleSteps(places: nat)
    ensures ScaleFor(0) == 1.0 && ScaleFor(places) == 10.0 * ScaleFor(places + 1)
    ensures ScaleFor(places) > 0.0 && TimesTen(ScaleFor(places), places) == 1.0
  {
    TimesTenIsPower(ScaleFor(places), places);
    Inverse(Pow10(places));
    Inverse(Pow10(places + 1));
    TenTimesInverse(Pow10(places));
  }

  lemma Inverse(p: real)
    requires p > 0.0
    ensures 1.0 / p > 0.0 && 1.0 / p * p == 1.0
  {
  }

  lemma TenTimesInverse(p: real)
    requires p > 0.0
    ensures 10.0 * (1.0 / (10.0 * p)) == 1.0 / p
  {
  }

  /** The three tables of a registry. */
  datatype Tables = Tables(rows: seq<Spec>, index: Index)

  function Rescaled(s: Spec, register: int, scale: real): Spec
  {
    if s.decimalRegister == Some(register) then s.(scale := scale) else s
  }

  function RescaledRows(rows: seq<Spec>, register: int, scale: real): seq<Spec>
  {
    seq(|rows|, i requires 0 <= i < |rows| => Rescaled(rows[i], register, scale))
  }

  function RescaledIndex(index: Index, register: int, scale: real): Index
  {
    Index(RescaledMap(index.byId, register, scale), RescaledMap(index.byName, register, scale))
  }

  function RescaledMap<K>(m: map<K, Spec>, register: int, scale: real): (r: map<K, Spec>)
    ensures r.Keys == m.Keys
    ensures forall k :: k in m ==> r[k] == Rescaled(m[k], register, scale)
  {
    map k | k in m :: Rescaled(m[k], register, scale)
  }

  function RescaledTables(t: Tables, register: int, scale: real): Tables
  {
    Tables(RescaledRows(t.rows, register, scale), RescaledIndex(t.index, register, scale))
  }

  lemma RescaledUpdate<K>(m: map<K, Spec>, k: K, row: Spec, register: int, scale: real)
    ensures RescaledMap(m[k := row], register, scale) == RescaledMap(m, register, scale)[k := Rescaled(row, register, scale)]
  {
    hide RescaledMap, Rescaled;
    SameMap(RescaledMap(m[k := row], register, scale), RescaledMap(m, register, scale)[k := Rescaled(row, register, scale)]);
  }

  lemma RescaledWithKeys(m: map<string, Spec>, keys: set<string>, row: Spec, register: int, scale: real)
    ensures RescaledMap(WithKeys(m, keys, row), register, scale)
         == WithKeys(RescaledMap(m, register, scale), keys, Rescaled(row, register, scale))
  {
    hide RescaledMap, Rescaled, WithKeys;
    SameMap(RescaledMap(WithKeys(m, keys, row), register, scale),
            WithKeys(RescaledMap(m, register, scale), keys, Rescaled(row, register, scale)));
  }

  lemma RescaledSame(row: Spec, register: int, scale: real)
    ensures var r := Rescaled(row, register, scale); r.id == row.id && r.name == row.name && r.aliases == row.aliases
  {
  }

  lemma WithRowRescaled(fold: Fold, owners: map<string, int>, index: Index, row: Spec, register: int, scale: real)
    ensures RescaledIndex(WithRow(fold, owners, index, row), register, scale)
         == WithRow(fold, owners, RescaledIndex(index, register, scale), Rescaled(row, register, scale))
  {
    hide RescaledMap, WithKeys, Folded, Rescaled;
    RescaledSame(row, register, scale);
    RescaledUpdate(index.byId, row.id, row, register, scale);
    RescaledUpdate(index.byName, fold(row.name), row, register, scale);
    RescaledWithKeys(index.byName[fold(row.name) := row], Folded(fold, row.aliases), row, register, scale);
  }

  /** Rescaling an index in place gives the index that would be built from the rescaled rows. */
  lemma {:induction false} RescalingIsRebuilding(fold: Fold, owners: map<string, int>, rows: seq<Spec>, register: int, scale: real)
    ensures RescaledIndex(IndexOf(fold, owners, rows), register, scale) == IndexOf(fold, owners, RescaledRows(rows, register, scale))
  {
    hide WithRow;
    if rows == [] {
      assert RescaledRows(rows, register, scale) == [];
    } else {
      var front, r := rows[..|rows| - 1], rows[|rows| - 1];
      RescalingIsRebuilding(fold, owners, front, register, scale);
      WithRowRescaled(fold, owners, IndexOf(fold, owners, front), r, register, scale);
      assert RescaledRows(rows, register, scale)[..|rows| - 1] == RescaledRows(front, register, scale);
    }
  }

  /** After rescaling, every name, alias and id resolves to the row it resolved to before, at most with another scale. */
  lemma RescalingKeepsMeaning(fold: Fold, t: Tables, register: int, scale: real, target: Target)
    ensures var was, now := Lookup(fold, t.index, target), Lookup(fold, RescaledTables(t, register, scale).index, target);
      if was.Err? then now == was
      else
        && now.Ok? && now.value.(scale := was.value.scale) == was.value
        && now.value.scale == if was.value.decimalRegister == Some(register) then scale else was.value.scale
  {
  }

  lemma LastRescalingWins(t: Tables, register: int, first: real, second: real)
    ensures RescaledTables(RescaledTables(t, register, first), register, second) == RescaledTables(t, register, second)
  {
    var l, r := RescaledTables(RescaledTables(t, register, first), register, second), RescaledTables(t, register, second);
    hide RescaledMap;
    assert l.rows == r.rows;
    SameMap(l.index.byId, r.index.byId);
    SameMap(l.index.byName, r.index.byName);
  }

  lemma RescalingsCommute(t: Tables, register: int, scale: real, other: int, otherScale: real)
    requires register != other
    ensures RescaledTables(RescaledTables(t, register, scale), other, otherScale)
         == RescaledTables(RescaledTables(t, other, otherScale), register, scale)
  {
    var l := RescaledTables(RescaledTables(t, register, scale), other, otherScale);
    var r := RescaledTables(RescaledTables(t, other, otherScale), register, scale);
    hide RescaledMap;
    assert l.rows == r.rows;
    SameMap(l.index.byId, r.index.byId);
    SameMap(l.index.byName, r.index.byName);
  }

  /** The three tables agree: every entry is a row, under its own id. */
  ghost predicate Consistent(t: Tables)
  {
    && UniqueIds(t.rows)
    && EntriesIn(t.index.byId, t.rows) && EntriesIn(t.index.byName, t.rows)
    && (forall k :: k in t.index.byId ==> t.index.byId[k].id == k)
  }

  ghost predicate EntriesIn<K(!new)>(m: map<K, Spec>, rows: seq<Spec>)
  {
    forall k :: k in m ==> m[k] in rows
  }

  /** A map of rows with the changed ones replaced. */
  function Patched<K>(m: map<K, Spec>, changed: map<int, Spec>): (r: map<K, Spec>)
    ensures r.Keys == m.Keys
    ensures forall k :: k in m ==> r[k] == if m[k].id in changed then changed[m[k].id] else m[k]
  {
    map k | k in m :: if m[k].id in changed then changed[m[k].id] else m[k]
  }

  lemma PatchedIsRescaled<K(!new)>(m: map<K, Spec>, rows: seq<Spec>, changed: map<int, Spec>, register: int, scale: real)
    requires EntriesIn(m, rows)
    requires forall s :: s in rows ==> Rescaled(s, register, scale) == if s.id in changed then changed[s.id] else s
    ensures Patched(m, changed) == RescaledMap(m, register, scale)
  {
    hide Rescaled, RescaledMap, Patched;
    SameMap(Patched(m, changed), RescaledMap(m, register, scale));
  }

  lemma NothingPatched<K>(m: map<K, Spec>)
    ensures Patched(m, map[]) == m
  {
    hide Patched;
    SameMap(Patched(m, map[]), m);
  }

  // ---------------------------------------------------------------- the registry

  class ParameterRegistry {
    const fold: Fold
    const rows: seq<Spec>
    const byId: map<int, Spec>
    const byName: map<string, Spec>

    ghost function Content(): Tables
    {
      Tables(rows, Index(byId, byName))
    }

    ghost predicate Valid()
    {
      Consistent(Content())
    }

    constructor (fold: Fold, specs: seq<Spec>, aliases: map<string, string>, overrides: seq<(int, string)>)
      ensures this.fold == fold
      ensures var bound := ReboundAll(specs, aliases, overrides);
              Content() == Tables(bound, IndexOf(fold, Owners(fold, overrides), bound))
      ensures UniqueIds(specs) ==> Valid()
    {
      hide WithRow, Rebound, HasAlias;
      var rebound := [];
      for i := 0 to |specs|
        invariant rebound == ReboundAll(specs[..i], aliases, overrides)
      {
        rebound := rebound + [Rebound(specs[i], aliases, overrides)];
      }
      assert specs[..|specs|] == specs;
      var owners := map[];
      for i := 0 to |overrides|
        invariant owners == Owners(fold, overrides[..i])
      {
        assert overrides[..i + 1][..i] == overrides[..i];
        owners := owners[fold(overrides[i].1) := overrides[i].0];
      }
      assert overrides[..|overrides|] == overrides;
      var byId, byName := map[], map[];
      for i := 0 to |rebound|
        invariant Index(byId, byName) == IndexOf(fold, owners, rebound[..i])
      {
        assert rebound[..i + 1][..i] == rebound[..i];
        byId, byName := Add(fold, owners, byId, byName, rebound[i]);
      }
      assert rebound[..|rebound|] == rebound;
      this.fold, this.rows, this.byId, this.byName := fold, rebound, byId, byName;
      if UniqueIds(specs) { BuiltValid(fold, specs, aliases, overrides); }
    }

    /** A registry around tables already made, as copying one gives. */
    constructor Copy(fold: Fold, rows: seq<Spec>, byId: map<int, Spec>, byName: map<string, Spec>)
      ensures this.fold == fold && Content() == Tables(rows, Index(byId, byName))
    {
      this.fold, this.rows, this.byId, this.byName := fold, rows, byId, byName;
    }

    function Resolve(target: Target): Result<Spec, Invalid>
    {
      Lookup(fold, Index(byId, byName), target)
    }

    /** A registry whose rows bound to `register` scale by ten to the minus `places`; this one stays as it is. */
    method WithDecimalPlaces(register: int, places: int) returns (r: Result<ParameterRegistry, Invalid>)
      requires Valid()
      ensures r.Err? <==> places < 0
      ensures r.Err? ==> r.error == NegativePlaces
      ensures r.Ok? ==>
                && r.value.fold == fold && r.value.Valid()
                && r.value.Content() == RescaledTables(Content(), register, ScaleFor(places))
                && |r.value.rows| == |rows|
      ensures r.Ok? ==> forall i :: 0 <= i < |rows| ==> RescaledRow(rows[i], r.value.rows[i], register, places)
    {
      if places < 0 { return Err(NegativePlaces); }
      ScaleSteps(places);
      forall i | 0 <= i < |rows| ensures RescaledRow(rows[i], Rescaled(rows[i], register, ScaleFor(places)), register, places) {}
      hide ScaleFor, Rescaled, RescaledMap, Patched, UniqueIds;
      var scale := ScaleFor(places);
      var rescaled := ChangedRows(rows, register, scale);
      RescaledConsistent(Content(), register, scale);
      PatchedIsRescaled(byId, rows, rescaled, register, scale);
      PatchedIsRescaled(byName, rows, rescaled, register, scale);
      var newRows := seq(|rows|, i requires 0 <= i < |rows| => if rows[i].id in rescaled then rescaled[rows[i].id] else rows[i]);
      assert newRows == RescaledRows(rows, register, scale);
      if rescaled == map[] {
        NothingPatched(byId);
        NothingPatched(byName);
        assert newRows == rows;
        return Ok(this);
      }
      var clone := new ParameterRegistry.Copy(fold, newRows, Patched(byId, rescaled), Patched(byName, rescaled));
      return Ok(clone);
    }
  }

  /** A row bound to the register has a scale that is 1 after `places` multiplications by ten; nothing else changes. */
  predicate RescaledRow(was: Spec, now: Spec, register: int, places: nat)
  {
    && now == was.(scale := now.scale)
    && (was.decimalRegister == Some(register) ==> TimesTen(now.scale, places) == 1.0)
    && (was.decimalRegister != Some(register) ==> now.scale == was.scale)
  }

  /** The rows a rescaling really changes, by id. */
  method ChangedRows(rows: seq<Spec>, register: int, scale: real) returns (changed: map<int, Spec>)
    requires UniqueIds(rows)
    ensures forall s :: s in rows ==> Rescaled(s, register, scale) == if s.id in changed then changed[s.id] else s
  {
    changed := map[];
    for i := 0 to |rows|
      invariant forall j :: 0 <= j < i ==>
        Rescaled(rows[j], register, scale) == if rows[j].id in changed then changed[rows[j].id] else rows[j]
      invariant forall j :: i <= j < |rows| ==> rows[j].id !in changed
    {
      if rows[i].decimalRegister == Some(register) && rows[i].scale != scale {
        changed := changed[rows[i].id := rows[i].(scale := scale)];
      }
    }
  }

  lemma RescaledConsistent(t: Tables, register: int, scale: real)
    requires Consistent(t)
    ensures Consistent(RescaledTables(t, register, scale))
  {
    hide RescaledMap;
    var after := RescaledTables(t, register, scale);
    forall s | s in t.rows ensures Rescaled(s, register, scale) in after.rows {
      var j :| 0 <= j < |t.rows| && t.rows[j] == s;
      assert after.rows[j] == Rescaled(s, register, scale);
    }
  }

  /** Enters one row in both maps. */
  method Add(fold: Fold, owners: map<string, int>, byId: map<int, Spec>, byName: map<string, Spec>, row: Spec)
    returns (newById: map<int, Spec>, newByName: map<string, Spec>)
    ensures Index(newById, newByName) == WithRow(fold, owners, Index(byId, byName), row)
  {
    newById, newByName := byId[row.id := row], byName;
    var key := fold(row.name);
    if key in owners && owners[key] != row.id { return; }
    newByName := AddAliases(fold, newByName[key := row], row);
  }

  lemma FoldedAdd(fold: Fold, names: set<string>, a: string)
    ensures Folded(fold, names + {a}) == Folded(fold, names) + {fold(a)}
  {
  }

  method AddAliases(fold: Fold, named: map<string, Spec>, row: Spec) returns (m: map<string, Spec>)
    ensures m == WithKeys(named, Folded(fold, row.aliases), row)
  {
    hide WithKeys, Folded;
    m := named;
    var rest := row.aliases;
    NoKeys(fold, named, row);
    assert row.aliases - rest == {};
    while rest != {}
      invariant rest <= row.aliases && m == WithKeys(named, Folded(fold, row.aliases - rest), row)
      decreases |rest|
    {
      var a :| a in rest;
      FoldedAdd(fold, row.aliases - rest, a);
      OneMoreKey(named, Folded(fold, row.aliases - rest), fold(a), row);
      assert row.aliases - (rest - {a}) == row.aliases - rest + {a};
      if fold(a) !in m { m := m[fold(a) := row]; }
      rest := rest - {a};
    }
    assert row.aliases - rest == row.aliases;
  }

  lemma NoKeys(fold: Fold, named: map<string, Spec>, row: Spec)
    ensures WithKeys(named, Folded(fold, {}), row) == named
  {
    SameMap(WithKeys(named, Folded(fold, {}), row), named);
  }

  lemma OneMoreKey(named: map<string, Spec>, keys: set<string>, k: string, row: Spec)
    ensures var m := WithKeys(named, keys, row); WithKeys(named, keys + {k}, row) == if k in m then m else m[k := row]
  {
    hide WithKeys;
    var m := WithKeys(named, keys, row);
    SameMap(WithKeys(named, keys + {k}, row), if k in m then m else m[k := row]);
  }

  lemma BuiltValid(fold: Fold, specs: seq<Spec>, aliases: map<string, string>, overrides: seq<(int, string)>)
    requires UniqueIds(specs)
    ensures var bound := ReboundAll(specs, aliases, overrides);
      Consistent(Tables(bound, IndexOf(fold, Owners(fold, overrides), bound)))
  {
    var bound, owners := ReboundAll(specs, aliases, overrides), Owners(fold, overrides);
    hide IndexOf;
    var index := IndexOf(fold, owners, bound);
    forall k | k in index.byId ensures index.byId[k] in bound && index.byId[k].id == k { IdFinds(fold, owners, bound, k); }
    forall k | k in index.byName ensures index.byName[k] in bound { IndexFinds(fold, owners, bound, k); }
  }

  // ---------------------------------------------------------------- validators

  function ValidateInstance(s: Spec, instance: int): Result<(), Invalid>
  {
    if instance < 1 || instance > s.maxInstance then Err(InstanceOutOfRange) else Ok(())
  }

  function ValidateWritable(s: Spec): Result<(), Invalid>
  {
    if s.rwes == R then Err(ReadOnly) else Ok(())
  }

  /** A number against a parsed range; text passes None and is not checked. */
  function ValidateValue(s: Spec, value: Option<real>): Result<(), Invalid>
  {
    if value.None? || s.rangeMin.None? || s.rangeMax.None? then Ok(())
    else if value.value < s.rangeMin.value || value.value > s.rangeMax.value then Err(ValueOutOfRange)
    else Ok(())
  }
}
