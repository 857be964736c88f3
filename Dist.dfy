/** Data conversions between Qiskit-style results and plain vectors:
    counts dictionaries to dense lists and distributions, aggregation of
    several counts dictionaries, and folding a probability vector onto its
    non-ancilla bits. A counts dictionary is a sequence of (key, count)
    pairs in insertion order, which is the order the loops visit them in. */
module Dist {

  import opened Common
  import opened Bits
  import ResultFormat

  type Counts = seq<(string, int)>

  /** `s.replace(' ', '')`. */
  function RemoveSpaces(s: string): (r: string)
    ensures |r| <= |s|
  {
    if s == [] then [] else RemoveSpaces(s[..|s| - 1]) + (if s[|s| - 1] == ' ' then [] else [s[|s| - 1]])
  }

  lemma {:induction false} RemoveSpacesNoSpaces(s: string)
    requires forall i :: 0 <= i < |s| ==> s[i] != ' '
    ensures RemoveSpaces(s) == s
  {
    if s != [] {
      RemoveSpacesNoSpaces(s[..|s| - 1]);
    }
  }

  /** `int(state.replace(' ', ''), 2)`; `None` stands for the `ValueError`. */
  function KeyIndex(state: string): Option<nat>
  {
    ParseBinary(RemoveSpaces(state))
  }

  // ---------------------------------------------------------------------
  // counts_to_list / counts_to_dist

  /** The list after the first `k` entries were written into `[0] * 2**width`. */
  function CountsPrefix(counts: Counts, width: nat, k: nat): (r: Result<seq<int>>)
    requires k <= |counts|
    ensures r.Success? ==> |r.value| == Pow2(width)
  {
    if k == 0 then Success(seq(Pow2(width), _ => 0))
    else match CountsPrefix(counts, width, k - 1)
      case Failure(e) => Failure(e)
      case Success(list) =>
        match KeyIndex(counts[k - 1].0)
        case None => Failure(ValueError)
        case Some(j) => if j < |list| then Success(list[j := counts[k - 1].1]) else Failure(IndexError)
  }

  /** The width is that of the first key with its spaces removed; an empty
      dictionary has no first key (`IndexError`). */
  function CountsList(counts: Counts): Result<seq<int>>
  {
    if counts == [] then Failure(IndexError)
    else CountsPrefix(counts, |RemoveSpaces(counts[0].0)|, |counts|)
  }

  method CountsToList(counts: Counts) returns (r: Result<seq<int>>)
    ensures r == CountsList(counts)
  {
    if |counts| == 0 {
      return Failure(IndexError);
    }
    var width := |RemoveSpaces(counts[0].0)|;
    var list := new int[Pow2(width)](_ => 0);
    assert list[..] == seq(Pow2(width), _ => 0);
    for i := 0 to |counts|
      invariant CountsPrefix(counts, width, i) == Success(list[..])
    {
      var err := StoreCount(list, counts, width, i);
      if err.Some? {
        CountsFailureSticks(counts, width, i + 1, |counts|);
        return Failure(err.value);
      }
    }
    return Success(list[..]);
  }

  /** One pass of the loop: `num_list[int(state, 2)] = counts[state]`. */
  method StoreCount(list: array<int>, counts: Counts, width: nat, i: nat) returns (err: Option<PyError>)
    requires i < |counts| && CountsPrefix(counts, width, i) == Success(list[..])
    modifies list
    ensures err.None? ==> CountsPrefix(counts, width, i + 1) == Success(list[..])
    ensures err.Some? ==> CountsPrefix(counts, width, i + 1) == Failure(err.value)
  {
    var j := KeyIndex(counts[i].0);
    if j.None? {
      return Some(ValueError);
    }
    if j.value >= list.Length {
      return Some(IndexError);
    }
    list[j.value] := counts[i].1;
    return None;
  }

  lemma {:induction false} CountsFailureSticks(counts: Counts, width: nat, k: nat, n: nat)
    requires k <= n <= |counts|
    requires CountsPrefix(counts, width, k).Failure?
    ensures CountsPrefix(counts, width, n) == CountsPrefix(counts, width, k)
  {
    if n > k {
      CountsFailureSticks(counts, width, k, n - 1);
    }
  }

  /** Key that fits: it parses and its index is inside the list. */
  predicate KeyFits(state: string, width: nat)
  {
    KeyIndex(state).Some? && KeyIndex(state).value < Pow2(width)
  }

  /** The count of the last of the first `k` entries whose key names slot `j`. */
  function LastCount(counts: Counts, j: nat, k: nat): Option<int>
    requires k <= |counts|
  {
    if k == 0 then None
    else if KeyIndex(counts[k - 1].0) == Some(j) then Some(counts[k - 1].1)
    else LastCount(counts, j, k - 1)
  }

  /** Conversion succeeds exactly when every key parses to an index below 2^width. */
  lemma {:induction false} CountsPrefixSuccess(counts: Counts, width: nat, k: nat)
    requires k <= |counts|
    ensures CountsPrefix(counts, width, k).Success? <==> forall i :: 0 <= i < k ==> KeyFits(counts[i].0, width)
  {
    if k > 0 {
      CountsPrefixSuccess(counts, width, k - 1);
    }
  }

  /** Slot `j` holds the count of the last key naming it, and 0 when no key does. */
  lemma {:induction false} CountsPrefixSlot(counts: Counts, width: nat, k: nat, j: nat)
    requires k <= |counts|
    requires CountsPrefix(counts, width, k).Success?
    requires j < Pow2(width)
    ensures CountsPrefix(counts, width, k).value[j] == match LastCount(counts, j, k) case None => 0 case Some(c) => c
  {
    if k > 0 {
      CountsPrefixSlot(counts, width, k - 1, j);
    }
  }

  /** A key no later key collides with lands in its own slot with its own count. */
  lemma {:induction false} LastCountOfUniqueKey(counts: Counts, j: nat, k: nat, i: nat)
    requires i < k <= |counts|
    requires KeyIndex(counts[i].0) == Some(j)
    requires forall i' :: i < i' < k ==> KeyIndex(counts[i'].0) != Some(j)
    ensures LastCount(counts, j, k) == Some(counts[i].1)
  {
    if k - 1 != i {
      LastCountOfUniqueKey(counts, j, k - 1, i);
    }
  }

  /** `counts_to_list`: an empty dictionary raises `IndexError`; otherwise the
      list has 2^width entries, slot j holds the count of the last key whose
      binary value is j and absent states hold 0; a key that does not parse
      raises `ValueError`, one whose value is too large `IndexError`. */
  /** A list that `counts_to_list` returns has at least two slots: the
      first key needs at least one binary digit. */
  lemma CountsListWide(counts: Counts)
    ensures CountsList(counts).Success? ==> |CountsList(counts).value| >= 2
  {
    CountsListMeaning(counts);
    if CountsList(counts).Success? {
      var w := |RemoveSpaces(counts[0].0)|;
      assert KeyFits(counts[0].0, w);
      assert Pow2(w) == 2 * Pow2(w - 1);
    }
  }

  lemma CountsListMeaning(counts: Counts)
    ensures counts == [] ==> CountsList(counts) == Failure(IndexError)
    ensures counts != [] ==>
      (CountsList(counts).Success? <==>
         forall i :: 0 <= i < |counts| ==> KeyFits(counts[i].0, |RemoveSpaces(counts[0].0)|))
    ensures CountsList(counts).Success? ==>
      counts != [] && |CountsList(counts).value| == Pow2(|RemoveSpaces(counts[0].0)|) &&
      forall j :: 0 <= j < |CountsList(counts).value| ==>
        CountsList(counts).value[j] == match LastCount(counts, j, |counts|) case None => 0 case Some(c) => c
  {
    if counts != [] {
      var w := |RemoveSpaces(counts[0].0)|;
      CountsPrefixSuccess(counts, w, |counts|);
      if CountsList(counts).Success? {
        forall j | 0 <= j < |CountsList(counts).value|
          ensures CountsList(counts).value[j] == match LastCount(counts, j, |counts|) case None => 0 case Some(c) => c
        {
          CountsPrefixSlot(counts, w, |counts|, j);
        }
      }
    }
  }

  /** The first dictionary of the plugin's own formatting tests: every state present. */
  lemma CountsListFullExample(c: Counts)
    requires |c| == 4 && c[0] == ("00", 3) && c[1] == ("01", 5) && c[2] == ("10", 12) && c[3] == ("11", 18)
    ensures CountsList(c) == Success([3, 5, 12, 18])
  {
    TwoBitStart(c, '0', '0');
    CountsStep(c, 2, 0, 0, 0, 0, 0, '0', '0');
    CountsStep(c, 2, 1, 3, 0, 0, 0, '0', '1');
    CountsStep(c, 2, 2, 3, 5, 0, 0, '1', '0');
    CountsStep(c, 2, 3, 3, 5, 12, 0, '1', '1');
  }

  /** The second dictionary of the same tests: the absent state "00" reads 0. */
  lemma CountsListAbsentExample(c: Counts)
    requires |c| == 3 && c[0] == ("01", 5) && c[1] == ("10", 12) && c[2] == ("11", 18)
    ensures CountsList(c) == Success([0, 5, 12, 18])
  {
    TwoBitStart(c, '0', '1');
    CountsStep(c, 2, 0, 0, 0, 0, 0, '0', '1');
    CountsStep(c, 2, 1, 0, 5, 0, 0, '1', '0');
    CountsStep(c, 2, 2, 0, 5, 12, 0, '1', '1');
  }

  /** A dictionary whose first key has two bits gives a list of four zeros to fill. */
  lemma TwoBitStart(c: Counts, a: char, b: char)
    requires |c| > 0 && c[0].0 == [a, b] && IsBinaryChar(a) && IsBinaryChar(b)
    ensures CountsList(c) == CountsPrefix(c, 2, |c|)
    ensures CountsPrefix(c, 2, 0) == Success([0, 0, 0, 0])
  {
    TwoBitKey(a, b);
    assert Pow2(2) == 4;
    assert seq(4, _ => 0) == [0, 0, 0, 0];
  }

  /** One write of `counts_list[int(f_state, 2)] = counts[state]` for a two-bit key. */
  lemma CountsStep(counts: Counts, width: nat, k: nat, x0: int, x1: int, x2: int, x3: int, a: char, b: char)
    requires k < |counts| && counts[k].0 == [a, b] && IsBinaryChar(a) && IsBinaryChar(b)
    requires CountsPrefix(counts, width, k) == Success([x0, x1, x2, x3])
    ensures var j, v := 2 * (if a == '1' then 1 else 0) + (if b == '1' then 1 else 0), counts[k].1;
      CountsPrefix(counts, width, k + 1) == Success([if j == 0 then v else x0, if j == 1 then v else x1,
                                                     if j == 2 then v else x2, if j == 3 then v else x3])
  {
    TwoBitKey(a, b);
    var j, v := 2 * (if a == '1' then 1 else 0) + (if b == '1' then 1 else 0), counts[k].1;
    assert [x0, x1, x2, x3][j := v] == [if j == 0 then v else x0, if j == 1 then v else x1,
                                         if j == 2 then v else x2, if j == 3 then v else x3];
  }

  lemma TwoBitKey(a: char, b: char)
    requires IsBinaryChar(a) && IsBinaryChar(b)
    ensures RemoveSpaces([a, b]) == [a, b]
    ensures KeyIndex([a, b]) == Some(2 * (if a == '1' then 1 else 0) + (if b == '1' then 1 else 0))
  {
    assert [a, b][..1] == [a];
    assert [a][..0] == [];
    assert RemoveSpaces([a, b]) == [a, b];
    assert BinValue([a]) == (if a == '1' then 1 else 0);
  }

  /** `[element / sum(counts_list) for element in counts_list]`; the sum is
      taken once per element, so an empty list divides nothing. */
  function Normalize(list: seq<int>): (r: Result<seq<real>>)
    ensures r.Success? ==> |r.value| == |list|
    ensures r.Failure? <==> list != [] && SumInt(list) == 0
  {
    if list == [] then Success([])
    else if SumInt(list) == 0 then Failure(ZeroDivisionError)
    else Success(Ratios(list, SumInt(list) as real))
  }

  function Ratios(list: seq<int>, total: real): (r: seq<real>)
    requires total != 0.0
    ensures |r| == |list|
  {
    if list == [] then [] else Ratios(list[..|list| - 1], total) + [list[|list| - 1] as real / total]
  }

  lemma {:induction false} RatiosAt(list: seq<int>, total: real, i: nat)
    requires total != 0.0 && i < |list|
    ensures Mul(Ratios(list, total)[i], total) == list[i] as real
  {
    if i < |list| - 1 {
      RatiosAt(list[..|list| - 1], total, i);
    }
  }

  lemma {:induction false} SumRatios(list: seq<int>, total: real)
    requires total != 0.0
    ensures Sum(Ratios(list, total)) == SumInt(list) as real / total
  {
    if list != [] {
      var r := Ratios(list, total);
      assert r[..|r| - 1] == Ratios(list[..|list| - 1], total);
      SumRatios(list[..|list| - 1], total);
    }
  }

  /** Each entry of a normalised list times the total is the original entry,
      and the entries sum to 1. */
  lemma NormalizeProportional(list: seq<int>)
    requires Normalize(list).Success? && list != []
    ensures forall i :: 0 <= i < |list| ==> Mul(Normalize(list).value[i], SumInt(list) as real) == list[i] as real
  {
    var t := SumInt(list) as real;
    var r := Ratios(list, t);
    assert Normalize(list).value == r;
    forall i | 0 <= i < |list| ensures Mul(r[i], t) == list[i] as real {
      RatiosAt(list, t, i);
    }
  }

  lemma NormalizeSumsToOne(list: seq<int>)
    requires Normalize(list).Success? && list != []
    ensures Sum(Normalize(list).value) == 1.0
  {
    var t := SumInt(list) as real;
    SumRatios(list, t);
    DivSelf(SumInt(list) as real, t);
  }

  lemma DivSelf(x: real, t: real)
    requires t != 0.0 && x == t
    ensures x / t == 1.0
  {
  }

  function CountsDist(counts: Counts): Result<seq<real>>
  {
    match CountsList(counts)
    case Failure(e) => Failure(e)
    case Success(list) => Normalize(list)
  }

  /** `counts_to_dist`: the same list as `counts_to_list`, divided by its total. */
  method CountsToDist(counts: Counts) returns (r: Result<seq<real>>)
    ensures r == CountsDist(counts)
  {
    var list := CountsToList(counts);
    if list.Failure? {
      return Failure(list.error);
    }
    return Normalize(list.value);
  }

  /** A converted distribution sums to 1; it fails with `ZeroDivisionError`
      exactly when the converted list sums to 0. */
  lemma CountsDistSumsToOne(counts: Counts)
    ensures CountsDist(counts).Success? ==> Sum(CountsDist(counts).value) == 1.0
    ensures CountsList(counts).Success? ==>
      (CountsDist(counts) == Failure(ZeroDivisionError) <==> SumInt(CountsList(counts).value) == 0)
  {
    if CountsList(counts).Success? {
      CountsListMeaning(counts);
      var list := CountsList(counts).value;
      assert |list| >= 1;
      if Normalize(list).Success? {
        NormalizeSumsToOne(list);
      }
    }
  }

  // ---------------------------------------------------------------------
  // aggregate_counts_results

  /** Every entry of every dictionary, in the order the nested loop visits them. */
  function Flatten(counts: seq<Counts>): (r: Counts)
  {
    if counts == [] then [] else Flatten(counts[..|counts| - 1]) + counts[|counts| - 1]
  }

  /** The table after `for key in keys: aggregate_counts[key] = 0`. */
  function ZeroTable(keys: seq<string>): (t: map<string, int>)
  {
    map k | k in keys :: 0
  }

  lemma ZeroTableKeys(keys: seq<string>)
    ensures forall k :: k in ZeroTable(keys) <==> k in keys
  {
  }

  /** `aggregate_counts[key] += count` for each entry in turn. */
  function AddEntries(t: map<string, int>, entries: Counts): Result<map<string, int>>
  {
    if entries == [] then Success(t)
    else match AddEntries(t, entries[..|entries| - 1])
      case Failure(e) => Failure(e)
      case Success(t') =>
        var (key, c) := entries[|entries| - 1];
        if key in t' then Success(t'[key := t'[key] + c]) else Failure(KeyError)
  }

  function Aggregate(counts: seq<Counts>, keys: seq<string>): Result<map<string, int>>
  {
    AddEntries(ZeroTable(keys), Flatten(counts))
  }

  method AggregateCountsResults(counts: seq<Counts>, keys: seq<string>) returns (r: Result<map<string, int>>)
    ensures r == Aggregate(counts, keys)
  {
    var table := ZeroTableOf(keys);
    for i := 0 to |counts|
      invariant AddEntries(ZeroTable(keys), Flatten(counts[..i])) == Success(table)
    {
      var next := AddCounts(table, counts[i]);
      assert counts[..i + 1][..i] == counts[..i];
      AddEntriesAppend(ZeroTable(keys), Flatten(counts[..i]), counts[i]);
      if next.Failure? {
        AggregateFailureSticks(ZeroTable(keys), counts, i + 1);
        return Failure(next.error);
      }
      table := next.value;
    }
    assert counts[..|counts|] == counts;
    return Success(table);
  }

  /** `for key in keys: aggregate_counts[key] = 0`. */
  method ZeroTableOf(keys: seq<string>) returns (table: map<string, int>)
    ensures table == ZeroTable(keys)
  {
    table := map[];
    for i := 0 to |keys|
      invariant table == ZeroTable(keys[..i])
    {
      table := table[keys[i] := 0];
      assert keys[..i + 1] == keys[..i] + [keys[i]];
    }
    assert keys[..|keys|] == keys;
  }

  /** `for key in counts_list: aggregate_counts[key] += counts_list[key]`. */
  method AddCounts(table: map<string, int>, entries: Counts) returns (r: Result<map<string, int>>)
    ensures r == AddEntries(table, entries)
  {
    var t := table;
    for j := 0 to |entries|
      invariant AddEntries(table, entries[..j]) == Success(t)
    {
      assert entries[..j + 1][..j] == entries[..j];
      var (key, c) := entries[j];
      if key !in t {
        AddEntriesFailureSticks(table, entries, j + 1);
        return Failure(KeyError);
      }
      t := t[key := t[key] + c];
    }
    assert entries[..|entries|] == entries;
    return Success(t);
  }

  /** Adding two runs of entries is adding the first, then the second. */
  lemma {:induction false} AddEntriesAppend(t: map<string, int>, a: Counts, b: Counts)
    ensures AddEntries(t, a + b) == match AddEntries(t, a)
      case Failure(e) => Failure(e)
      case Success(t') => AddEntries(t', b)
  {
    if b == [] {
      assert a + b == a;
    } else {
      assert (a + b)[..|a + b| - 1] == a + b[..|b| - 1];
      AddEntriesAppend(t, a, b[..|b| - 1]);
      if AddEntries(t, a).Failure? {
        AddEntriesFailureSticks(t, a + b, |a|);
        assert (a + b)[..|a|] == a;
      }
    }
  }

  /** A `KeyError` in dictionary k-1 is the overall result. */
  lemma AggregateFailureSticks(t: map<string, int>, counts: seq<Counts>, k: nat)
    requires k <= |counts|
    requires AddEntries(t, Flatten(counts[..k])).Failure?
    ensures AddEntries(t, Flatten(counts)) == AddEntries(t, Flatten(counts[..k]))
  {
    FlattenGrows(counts, k, |counts|);
    assert counts[..|counts|] == counts;
    assert Flatten(counts)[..|Flatten(counts[..k])|] == Flatten(counts[..k]);
    AddEntriesFailureSticks(t, Flatten(counts), |Flatten(counts[..k])|);
  }

  lemma {:induction false} FlattenGrows(counts: seq<Counts>, k: nat, n: nat)
    requires k <= n <= |counts|
    ensures Flatten(counts[..k]) <= Flatten(counts[..n])
  {
    if n > k {
      FlattenGrows(counts, k, n - 1);
      assert counts[..n][..n - 1] == counts[..n - 1];
    }
  }

  lemma {:induction false} AddEntriesFailureSticks(t: map<string, int>, entries: Counts, k: nat)
    requires k <= |entries|
    requires AddEntries(t, entries[..k]).Failure?
    ensures AddEntries(t, entries) == AddEntries(t, entries[..k])
  {
    if k < |entries| {
      var e' := entries[..|entries| - 1];
      assert e'[..k] == entries[..k];
      AddEntriesFailureSticks(t, e', k);
    } else {
      assert entries[..k] == entries;
    }
  }

  /** The sum of the counts of all entries with key `key`. */
  function Total(entries: Counts, key: string): int
  {
    if entries == [] then 0
    else Total(entries[..|entries| - 1], key) + (if entries[|entries| - 1].0 == key then entries[|entries| - 1].1 else 0)
  }

  /** Adding entries succeeds exactly when each key is already in the table;
      then the keys are unchanged and each value has grown by its total. */
  lemma {:induction false} AddEntriesMeaning(t: map<string, int>, entries: Counts)
    ensures AddEntries(t, entries).Success? <==> forall i :: 0 <= i < |entries| ==> entries[i].0 in t
    ensures AddEntries(t, entries).Success? ==>
      AddEntries(t, entries).value.Keys == t.Keys &&
      forall k :: k in t ==> AddEntries(t, entries).value[k] == t[k] + Total(entries, k)
  {
    if entries != [] {
      AddEntriesMeaning(t, entries[..|entries| - 1]);
    }
  }

  lemma {:induction false} TotalAppend(a: Counts, b: Counts, key: string)
    ensures Total(a + b, key) == Total(a, key) + Total(b, key)
  {
    if b != [] {
      assert (a + b)[..|a + b| - 1] == a + b[..|b| - 1];
      TotalAppend(a, b[..|b| - 1], key);
    } else {
      assert a + b == a;
    }
  }

  /** The total of one key over several dictionaries, dictionary by dictionary. */
  function TotalOver(counts: seq<Counts>, key: string): int
  {
    if counts == [] then 0 else TotalOver(counts[..|counts| - 1], key) + Total(counts[|counts| - 1], key)
  }

  lemma {:induction false} TotalFlatten(counts: seq<Counts>, key: string)
    ensures Total(Flatten(counts), key) == TotalOver(counts, key)
  {
    if counts != [] {
      TotalFlatten(counts[..|counts| - 1], key);
      TotalAppend(Flatten(counts[..|counts| - 1]), counts[|counts| - 1], key);
    }
  }

  /** `aggregate_counts_results`: every given key starts at 0 and ends with
      the sum of its counts over all dictionaries; a count key that is not
      among `keys` raises `KeyError`. */
  lemma AggregateMeaning(counts: seq<Counts>, keys: seq<string>)
    ensures Aggregate(counts, keys).Success? ==>
      forall i :: 0 <= i < |Flatten(counts)| ==> Flatten(counts)[i].0 in keys
    ensures Aggregate(counts, keys).Failure? ==>
      exists i :: 0 <= i < |Flatten(counts)| && Flatten(counts)[i].0 !in keys
    ensures Aggregate(counts, keys).Failure? ==> Aggregate(counts, keys) == Failure(KeyError)
    ensures Aggregate(counts, keys).Success? ==>
      (forall k :: k in Aggregate(counts, keys).value <==> k in keys) &&
      forall k :: k in keys ==> Aggregate(counts, keys).value[k] == TotalOver(counts, k)
  {
    ZeroTableKeys(keys);
    var all := Flatten(counts);
    AddEntriesMeaning(ZeroTable(keys), all);
    assert Aggregate(counts, keys) == AddEntries(ZeroTable(keys), all);
    if Aggregate(counts, keys).Success? {
      assert forall i :: 0 <= i < |all| ==> all[i].0 in keys;
    } else {
      var i :| 0 <= i < |all| && all[i].0 !in ZeroTable(keys);
      assert all[i].0 !in keys;
    }
    forall k | k in keys ensures Total(Flatten(counts), k) == TotalOver(counts, k) {
      TotalFlatten(counts, k);
    }
    AddEntriesKeyError(ZeroTable(keys), Flatten(counts));
  }

  lemma {:induction false} AddEntriesKeyError(t: map<string, int>, entries: Counts)
    ensures AddEntries(t, entries).Failure? ==> AddEntries(t, entries) == Failure(KeyError)
  {
    if entries != [] {
      AddEntriesKeyError(t, entries[..|entries| - 1]);
    }
  }

  /** The aggregation example of the plugin's formatting tests, from the
      general statement above. */
  lemma AggregateExample()
    ensures Aggregate([[("00", 10), ("10", 33)], [("01", 87), ("00", 20)], [("00", 1), ("11", 43)]],
                      ["00", "01", "10", "11"])
         == Success(map["00" := 31, "01" := 87, "10" := 33, "11" := 43])
  {
    var c0: Counts, c1: Counts, c2: Counts := [("00", 10), ("10", 33)], [("01", 87), ("00", 20)], [("00", 1), ("11", 43)];
    var counts := [c0, c1, c2];
    var keys := ["00", "01", "10", "11"];
    AggregateMeaning(counts, keys);
    FlattenExample(counts, c0, c1, c2);
    assert Aggregate(counts, keys).Success?;
    TotalOverExample(counts, c0, c1, c2);
    FourKeyTable(Aggregate(counts, keys).value, keys, 31, 87, 33, 43);
  }

  /** A table whose keys are exactly the four two-bit states, with given values. */
  lemma FourKeyTable(r: map<string, int>, keys: seq<string>, a: int, b: int, c: int, d: int)
    requires keys == ["00", "01", "10", "11"]
    requires forall k :: k in r <==> k in keys
    requires r["00"] == a && r["01"] == b && r["10"] == c && r["11"] == d
    ensures r == map["00" := a, "01" := b, "10" := c, "11" := d]
  {
    assert keys[0] == "00" && keys[1] == "01" && keys[2] == "10" && keys[3] == "11";
    assert r.Keys == {"00", "01", "10", "11"};
  }

  lemma FlattenExample(counts: seq<Counts>, c0: Counts, c1: Counts, c2: Counts)
    requires counts == [c0, c1, c2]
    ensures Flatten(counts) == c0 + c1 + c2
  {
    assert counts[..2] == [c0, c1];
    assert counts[..2][..1] == [c0];
    assert counts[..2][..1][..0] == [];
    assert Flatten(counts[..2][..1]) == c0;
    assert Flatten(counts[..2]) == c0 + c1;
  }

  lemma TotalOverExample(counts: seq<Counts>, c0: Counts, c1: Counts, c2: Counts)
    requires c0 == [("00", 10), ("10", 33)] && c1 == [("01", 87), ("00", 20)] && c2 == [("00", 1), ("11", 43)]
    requires counts == [c0, c1, c2]
    ensures TotalOver(counts, "00") == 31 && TotalOver(counts, "01") == 87
    ensures TotalOver(counts, "10") == 33 && TotalOver(counts, "11") == 43
  {
    assert "00"[0] != "10"[0] && "00"[1] != "01"[1] && "00"[0] != "11"[0];
    assert "01"[0] != "10"[0] && "01"[0] != "11"[0] && "10"[1] != "11"[1];
    TotalOfKey(counts, c0, c1, c2, "00");
    TotalOfKey(counts, c0, c1, c2, "01");
    TotalOfKey(counts, c0, c1, c2, "10");
    TotalOfKey(counts, c0, c1, c2, "11");
  }

  lemma TotalOfKey(counts: seq<Counts>, c0: Counts, c1: Counts, c2: Counts, key: string)
    requires counts == [c0, c1, c2] && |c0| == 2 && |c1| == 2 && |c2| == 2
    ensures TotalOver(counts, key) ==
      (if c0[0].0 == key then c0[0].1 else 0) + (if c0[1].0 == key then c0[1].1 else 0) +
      (if c1[0].0 == key then c1[0].1 else 0) + (if c1[1].0 == key then c1[1].1 else 0) +
      (if c2[0].0 == key then c2[0].1 else 0) + (if c2[1].0 == key then c2[1].1 else 0)
  {
    TotalOverThree(counts, c0, c1, c2, key);
    TotalPair(c0, key);
    TotalPair(c1, key);
    TotalPair(c2, key);
  }

  lemma TotalOverThree(counts: seq<Counts>, c0: Counts, c1: Counts, c2: Counts, key: string)
    requires counts == [c0, c1, c2]
    ensures TotalOver(counts, key) == Total(c0, key) + Total(c1, key) + Total(c2, key)
  {
    assert counts[..2] == [c0, c1];
    assert counts[..2][..1] == [c0];
    assert counts[..2][..1][..0] == [];
    assert TotalOver(counts[..2][..1], key) == Total(c0, key);
  }

  lemma TotalPair(c: Counts, key: string)
    requires |c| == 2
    ensures Total(c, key) == (if c[0].0 == key then c[0].1 else 0) + (if c[1].0 == key then c[1].1 else 0)
  {
    assert c[..1][..0] == [];
    assert Total(c[..1], key) == if c[0].0 == key then c[0].1 else 0;
  }

  // ---------------------------------------------------------------------
  // Folding a probability vector onto its non-ancilla bits

  /** `int(math.log2(n))` for n >= 1. */
  function FloorLog2(n: nat): (r: nat)
    requires n >= 1
    ensures Pow2(r) <= n < 2 * Pow2(r)
  {
    if n < 2 then 0 else 1 + FloorLog2(n / 2)
  }

  /** `bin(i)[2:].zfill(n)`. */
  function PaddedState(i: nat, n: nat): (s: string)
    ensures |s| == if |BinDigits(i)| >= n then |BinDigits(i)| else n
  {
    ZFill(BinDigits(i), n)
  }

  /** Python's `s[-m:]`: the last m characters, and the whole string when m
      is 0 (since -0 is 0) or at least the length. */
  function LastChars(s: string, m: nat): (r: string)
    ensures |r| == if m == 0 || m >= |s| then |s| else m
  {
    if m == 0 || m >= |s| then s else s[|s| - m..]
  }

  lemma PaddedStateBinary(i: nat, n: nat)
    ensures IsBinaryString(PaddedState(i, n))
    ensures BinValue(PaddedState(i, n)) == i
  {
    ZFillBinary(BinDigits(i), n);
    ZFillValue(BinDigits(i), n);
    BinDigitsValue(i);
  }

  /** The state `0` pads to the shortest string: max(1, n) characters. */
  lemma PaddedStateShortest(i: nat, n: nat)
    ensures |PaddedState(0, n)| == if n >= 1 then n else 1
    ensures |PaddedState(i, n)| >= |PaddedState(0, n)|
  {
  }

  /** `filtered_probs[target] += prob` for the first k probabilities, where
      each state's target is the outcome of its index computation; the first
      failure is the result. */
  function ScatterPrefix(probs: seq<real>, targets: seq<Result<nat>>, size: nat, k: nat): (r: Result<seq<real>>)
    requires k <= |probs| && k <= |targets|
    ensures r.Success? ==> |r.value| == size
  {
    if k == 0 then Success(seq(size, _ => 0.0))
    else match ScatterPrefix(probs, targets, size, k - 1)
      case Failure(e) => Failure(e)
      case Success(v) =>
        match targets[k - 1]
        case Failure(e) => Failure(e)
        case Success(t) => if t < size then Success(v[t := v[t] + probs[k - 1]]) else Failure(IndexError)
  }

  lemma {:induction false} ScatterFailureSticks(probs: seq<real>, targets: seq<Result<nat>>, size: nat, k: nat, n: nat)
    requires k <= n <= |probs| && n <= |targets|
    requires ScatterPrefix(probs, targets, size, k).Failure?
    ensures ScatterPrefix(probs, targets, size, n) == ScatterPrefix(probs, targets, size, k)
  {
    if n > k {
      ScatterFailureSticks(probs, targets, size, k, n - 1);
    }
  }

  /** Accumulation succeeds exactly when every target was computed and lies
      inside the output. */
  lemma {:induction false} ScatterSuccess(probs: seq<real>, targets: seq<Result<nat>>, size: nat, k: nat)
    requires k <= |probs| && k <= |targets|
    ensures ScatterPrefix(probs, targets, size, k).Success? ==>
      forall i :: 0 <= i < k ==> targets[i].Success? && targets[i].value < size
    ensures (forall i :: 0 <= i < k ==> targets[i].Success? && targets[i].value < size) ==>
      ScatterPrefix(probs, targets, size, k).Success?
  {
    if k > 0 {
      ScatterSuccess(probs, targets, size, k - 1);
    }
  }

  lemma ScatterStep(probs: seq<real>, targets: seq<Result<nat>>, size: nat, k: nat, v: seq<real>, t: nat)
    requires k < |probs| && k < |targets| && t < size
    requires ScatterPrefix(probs, targets, size, k) == Success(v) && targets[k] == Success(t)
    ensures ScatterPrefix(probs, targets, size, k + 1) == Success(v[t := v[t] + probs[k]])
  {
  }

  /** Every probability is added to exactly one entry, so the total mass is kept. */
  lemma {:induction false} ScatterMass(probs: seq<real>, targets: seq<Result<nat>>, size: nat, k: nat)
    requires k <= |probs| && k <= |targets|
    requires ScatterPrefix(probs, targets, size, k).Success?
    ensures Sum(ScatterPrefix(probs, targets, size, k).value) == Sum(probs[..k])
  {
    if k == 0 {
      SumZeros(size);
    } else {
      ScatterMass(probs, targets, size, k - 1);
      var v := ScatterPrefix(probs, targets, size, k - 1).value;
      SumAddAt(v, targets[k - 1].value, probs[k - 1]);
      assert probs[..k][..k - 1] == probs[..k - 1];
    }
  }

  /** The probability mass of the first k states whose target is `j`. */
  function MassAt(probs: seq<real>, targets: seq<Result<nat>>, j: nat, k: nat): real
    requires k <= |probs| && k <= |targets|
  {
    if k == 0 then 0.0 else MassAt(probs, targets, j, k - 1) + (if targets[k - 1] == Success(j) then probs[k - 1] else 0.0)
  }

  /** Entry j of the output is the mass of the states whose target is j. */
  lemma {:induction false} ScatterEntry(probs: seq<real>, targets: seq<Result<nat>>, size: nat, k: nat, j: nat)
    requires k <= |probs| && k <= |targets| && j < size
    requires ScatterPrefix(probs, targets, size, k).Success?
    ensures ScatterPrefix(probs, targets, size, k).value[j] == MassAt(probs, targets, j, k)
  {
    if k > 0 {
      ScatterEntry(probs, targets, size, k - 1, j);
    }
  }

  /** `filtered_probs[target] += prob` for state k, which extends the
      accumulation by one state. */
  method AccumulateAt(filtered: array<real>, probs: seq<real>, ghost targets: seq<Result<nat>>, k: nat, target: nat)
    requires k < |probs| && k < |targets| && target < filtered.Length
    requires targets[k] == Success(target)
    requires ScatterPrefix(probs, targets, filtered.Length, k) == Success(filtered[..])
    modifies filtered
    ensures ScatterPrefix(probs, targets, filtered.Length, k + 1) == Success(filtered[..])
  {
    ScatterStep(probs, targets, filtered.Length, k, filtered[..], target);
    filtered[target] := filtered[target] + probs[k];
  }

  /** The index the deprecated converter computes for state i: the last
      `na` characters of its `nq`-digit binary form, copied one by one into
      `['0'] * na` and read by `int(·, 2)`. */
  function SuffixIndex(i: nat, nq: nat, na: nat): Result<nat>
  {
    var fs := LastChars(PaddedState(i, nq), na);
    if na > |fs| then Failure(IndexError)
    else match ParseBinary(fs[..na])
      case None => Failure(ValueError)
      case Some(v) => Success(v)
  }

  method SuffixStateIndex(i: nat, nq: nat, na: nat) returns (r: Result<nat>)
    ensures r == SuffixIndex(i, nq, na)
  {
    var fs := LastChars(PaddedState(i, nq), na);
    var mapped := new char[na](_ => '0');
    for q := 0 to na
      invariant q <= |fs|
      invariant mapped[..q] == fs[..q]
    {
      if q >= |fs| {
        return Failure(IndexError);
      }
      mapped[q] := fs[q];
    }
    assert mapped[..] == fs[..na];
    var v := ParseBinary(mapped[..]);
    if v.None? {
      return Failure(ValueError);
    }
    return Success(v.value);
  }

  /** A state keeps its last `na` bits: the index is i mod 2^na, and it can be
      computed exactly when 1 <= na <= the padded length. */
  lemma SuffixIndexMeaning(i: nat, nq: nat, na: nat)
    ensures SuffixIndex(i, nq, na).Success? <==> 1 <= na <= |PaddedState(i, nq)|
    ensures SuffixIndex(i, nq, na).Success? ==> SuffixIndex(i, nq, na).value == i % Pow2(na)
  {
    var p := PaddedState(i, nq);
    if 1 <= na <= |p| {
      PaddedStateBinary(i, nq);
      var fs := LastChars(p, na);
      assert fs[..na] == p[|p| - na..];
      SuffixOfBinary(p, na);
      BinValueSuffix(p, na);
    } else if na == 0 {
      assert LastChars(p, na)[..na] == [];
    }
  }

  lemma SuffixOfBinary(p: string, m: nat)
    requires IsBinaryString(p) && m <= |p|
    ensures IsBinaryString(p[|p| - m..])
  {
    var suffix := p[|p| - m..];
    forall c | 0 <= c < |suffix| ensures IsBinaryChar(suffix[c]) {
      assert suffix[c] == p[|p| - m + c];
    }
  }

  function SuffixTargets(n: nat, nq: nat, na: nat): (t: seq<Result<nat>>)
    ensures |t| == n
  {
    seq(n, (i: int) requires 0 <= i => SuffixIndex(i, nq, na))
  }

  lemma SuffixTargetsAt(n: nat, nq: nat, na: nat, i: nat)
    requires i < n
    ensures SuffixTargets(n, nq, na)[i] == SuffixIndex(i, nq, na)
  {
  }

  /** `qiskit_statevector_to_probabilities` of `format/dist.py` on the squared
      magnitudes `probs`: `log2` of an empty vector is a `ValueError`. */
  function FoldedProbabilities(probs: seq<real>, na: nat): Result<seq<real>>
  {
    if |probs| == 0 then Failure(ValueError)
    else ScatterPrefix(probs, SuffixTargets(|probs|, FloorLog2(|probs|), na), Pow2(na), |probs|)
  }

  method QiskitStatevectorToProbabilities(probs: seq<real>, na: nat) returns (r: Result<seq<real>>)
    ensures r == FoldedProbabilities(probs, na)
  {
    var filtered := new real[Pow2(na)](_ => 0.0);
    assert filtered[..] == seq(Pow2(na), _ => 0.0);
    if |probs| == 0 {
      return Failure(ValueError);
    }
    var nq := FloorLog2(|probs|);
    ghost var targets := SuffixTargets(|probs|, nq, na);
    r := FoldAll(filtered, probs, targets, nq, na);
  }

  /** The deprecated converter's loop over all states. */
  method FoldAll(filtered: array<real>, probs: seq<real>, ghost targets: seq<Result<nat>>, nq: nat, na: nat)
    returns (r: Result<seq<real>>)
    requires targets == SuffixTargets(|probs|, nq, na) && filtered.Length == Pow2(na)
    requires filtered[..] == seq(Pow2(na), _ => 0.0)
    modifies filtered
    ensures r == ScatterPrefix(probs, targets, Pow2(na), |probs|)
  {
    for i := 0 to |probs|
      invariant ScatterPrefix(probs, targets, filtered.Length, i) == Success(filtered[..])
    {
      var err := FoldState(filtered, probs, targets, i, nq, na);
      if err.Some? {
        return Failure(err.value);
      }
    }
    return Success(filtered[..]);
  }

  /** One pass of the deprecated converter's loop: state i's index, then its mass. */
  method FoldState(filtered: array<real>, probs: seq<real>, ghost targets: seq<Result<nat>>, i: nat, nq: nat, na: nat)
    returns (err: Option<PyError>)
    requires i < |probs| && targets == SuffixTargets(|probs|, nq, na) && filtered.Length == Pow2(na)
    requires ScatterPrefix(probs, targets, filtered.Length, i) == Success(filtered[..])
    modifies filtered
    ensures err.None? ==> ScatterPrefix(probs, targets, filtered.Length, i + 1) == Success(filtered[..])
    ensures err.Some? ==> ScatterPrefix(probs, targets, filtered.Length, |probs|) == Failure(err.value)
  {
    SuffixTargetsAt(|probs|, nq, na, i);
    var t := SuffixStateIndex(i, nq, na);
    if t.Failure? {
      ScatterFailureSticks(probs, targets, filtered.Length, i + 1, |probs|);
      return Some(t.error);
    }
    SuffixIndexMeaning(i, nq, na);
    AccumulateAt(filtered, probs, targets, i, t.value);
    return None;
  }

  /** The mass of the first k states congruent to j modulo `modulus`. */
  function ResidueMass(probs: seq<real>, modulus: nat, j: nat, k: nat): real
    requires k <= |probs| && modulus >= 1
  {
    if k == 0 then 0.0 else ResidueMass(probs, modulus, j, k - 1) + (if (k - 1) % modulus == j then probs[k - 1] else 0.0)
  }

  lemma {:induction false} MassAtResidue(probs: seq<real>, targets: seq<Result<nat>>, modulus: nat, j: nat, k: nat)
    requires k <= |probs| && k <= |targets| && modulus >= 1
    requires forall i :: 0 <= i < k ==> targets[i] == Success(i % modulus)
    ensures MassAt(probs, targets, j, k) == ResidueMass(probs, modulus, j, k)
  {
    if k > 0 {
      MassAtResidue(probs, targets, modulus, j, k - 1);
    }
  }

  /** The deprecated converter succeeds exactly on a non-empty vector with
      1 <= na <= max(1, log2 n); then it has 2^na entries, entry j is the
      total probability of the states congruent to j modulo 2^na, and the
      total mass is kept. */
  lemma FoldedProbabilitiesMeaning(probs: seq<real>, na: nat)
    ensures FoldedProbabilities(probs, na).Success? <==>
      |probs| > 0 && 1 <= na && (na == 1 || na <= FloorLog2(|probs|))
    ensures FoldedProbabilities(probs, na).Success? ==>
      |FoldedProbabilities(probs, na).value| == Pow2(na) &&
      Sum(FoldedProbabilities(probs, na).value) == Sum(probs) &&
      forall j :: 0 <= j < Pow2(na) ==> FoldedProbabilities(probs, na).value[j] == ResidueMass(probs, Pow2(na), j, |probs|)
  {
    if |probs| > 0 {
      var nq := FloorLog2(|probs|);
      var targets := SuffixTargets(|probs|, nq, na);
      if 1 <= na && (na == 1 || na <= nq) {
        SuffixTargetsResidue(|probs|, nq, na);
        ResidueScatter(probs, targets, Pow2(na));
      } else {
        SuffixTargetsFirst(|probs|, nq, na);
        ScatterSuccess(probs, targets, Pow2(na), |probs|);
      }
    }
  }

  /** When na fits, state i goes to i mod 2^na. */
  lemma SuffixTargetsResidue(n: nat, nq: nat, na: nat)
    requires 1 <= na && (na == 1 || na <= nq)
    ensures forall i :: 0 <= i < n ==> SuffixTargets(n, nq, na)[i] == Success(i % Pow2(na))
  {
    forall i | 0 <= i < n ensures SuffixTargets(n, nq, na)[i] == Success(i % Pow2(na)) {
      SuffixTargetsAt(n, nq, na, i);
      PaddedStateShortest(i, nq);
      SuffixIndexMeaning(i, nq, na);
    }
  }

  /** When na does not fit, already state 0 fails. */
  lemma SuffixTargetsFirst(n: nat, nq: nat, na: nat)
    requires n > 0 && !(1 <= na && (na == 1 || na <= nq))
    ensures SuffixTargets(n, nq, na)[0].Failure?
  {
    SuffixTargetsAt(n, nq, na, 0);
    SuffixIndexMeaning(0, nq, na);
    PaddedStateShortest(0, nq);
  }

  /** Scattering every state i onto i mod `modulus` succeeds, keeps the mass
      and gives each residue the mass of its class. */
  lemma ResidueScatter(probs: seq<real>, targets: seq<Result<nat>>, modulus: nat)
    requires |targets| == |probs| && modulus >= 1
    requires forall i :: 0 <= i < |probs| ==> targets[i] == Success(i % modulus)
    ensures ScatterPrefix(probs, targets, modulus, |probs|).Success?
    ensures |ScatterPrefix(probs, targets, modulus, |probs|).value| == modulus
    ensures Sum(ScatterPrefix(probs, targets, modulus, |probs|).value) == Sum(probs)
    ensures forall j :: 0 <= j < modulus ==>
      ScatterPrefix(probs, targets, modulus, |probs|).value[j] == ResidueMass(probs, modulus, j, |probs|)
  {
    ScatterSuccess(probs, targets, modulus, |probs|);
    ScatterSummary(probs, targets, modulus);
    forall j | 0 <= j < modulus
      ensures ScatterPrefix(probs, targets, modulus, |probs|).value[j] == ResidueMass(probs, modulus, j, |probs|)
    {
      MassAtResidue(probs, targets, modulus, j, |probs|);
    }
  }

  /** A scatter over all states that succeeds keeps the mass and gives each
      slot the mass of the states sent to it. */
  lemma ScatterSummary(probs: seq<real>, targets: seq<Result<nat>>, size: nat)
    requires |targets| == |probs| && ScatterPrefix(probs, targets, size, |probs|).Success?
    ensures Sum(ScatterPrefix(probs, targets, size, |probs|).value) == Sum(probs)
    ensures forall j :: 0 <= j < size ==>
      ScatterPrefix(probs, targets, size, |probs|).value[j] == MassAt(probs, targets, j, |probs|)
  {
    ScatterMass(probs, targets, size, |probs|);
    assert probs[..|probs|] == probs;
    forall j | 0 <= j < size
      ensures ScatterPrefix(probs, targets, size, |probs|).value[j] == MassAt(probs, targets, j, |probs|)
    {
      ScatterEntry(probs, targets, size, |probs|, j);
    }
  }

  /** The slots of `mapped_state` after qubits 0..k-1 were placed by
      `mapped_state[meas_mappings[q]] = filtered_state[q]`; `None` marks a
      slot still holding the integer 0 it started with. The right-hand side
      is read first, then the mapping, then the slot. */
  function PlacePrefix(rev: string, m: map<nat, nat>, na: nat, k: nat): (r: Result<seq<Option<char>>>)
    ensures r.Success? ==> |r.value| == na
  {
    if k == 0 then Success(seq(na, _ => None))
    else match PlacePrefix(rev, m, na, k - 1)
      case Failure(e) => Failure(e)
      case Success(slots) =>
        if k - 1 >= |rev| then Failure(IndexError)
        else if k - 1 !in m then Failure(KeyError)
        else if m[k - 1] >= na then Failure(IndexError)
        else Success(slots[m[k - 1] := Some(rev[k - 1])])
  }

  lemma {:induction false} PlaceFailureSticks(rev: string, m: map<nat, nat>, na: nat, k: nat, n: nat)
    requires k <= n
    requires PlacePrefix(rev, m, na, k).Failure?
    ensures PlacePrefix(rev, m, na, n) == PlacePrefix(rev, m, na, k)
  {
    if n > k {
      PlaceFailureSticks(rev, m, na, k, n - 1);
    }
  }

  /** `''.join(mapped_state)`; a slot still holding an integer is a `TypeError`. */
  function JoinSlots(slots: seq<Option<char>>): (r: Option<string>)
    ensures r.Some? ==> |r.value| == |slots|
  {
    if slots == [] then Some([])
    else match JoinSlots(slots[..|slots| - 1])
      case None => None
      case Some(s) => if slots[|slots| - 1].None? then None else Some(s + [slots[|slots| - 1].value])
  }

  /** The key string the mapped converter builds for state i: the last `na`
      bits, reversed, each placed at the slot `m` names, then joined. */
  function MeasState(i: nat, nq: nat, na: nat, m: map<nat, nat>): Result<string>
  {
    var rev := Reverse(LastChars(PaddedState(i, nq), na));
    match PlacePrefix(rev, m, na, na)
    case Failure(e) => Failure(e)
    case Success(slots) =>
      match JoinSlots(slots)
      case None => Failure(TypeError)
      case Some(s) => Success(s)
  }

  /** The index of state i: its key string read by `int(·, 2)`. */
  function MeasIndex(i: nat, nq: nat, na: nat, m: map<nat, nat>): Result<nat>
  {
    match MeasState(i, nq, na, m)
    case Failure(e) => Failure(e)
    case Success(s) =>
      match ParseBinary(s)
      case None => Failure(ValueError)
      case Some(v) => Success(v)
  }

  method MappedStateIndex(i: nat, nq: nat, na: nat, m: map<nat, nat>) returns (r: Result<nat>)
    ensures r == MeasIndex(i, nq, na, m)
  {
    var fs := LastChars(PaddedState(i, nq), na);
    var filtered := new char[|fs|](k requires 0 <= k < |fs| => fs[k]);
    assert filtered[..] == fs;
    ResultFormat.ReverseInPlace(filtered);
    var placed := PlaceQubits(filtered[..], m, na);
    if placed.Failure? {
      return Failure(placed.error);
    }
    var joined := JoinSlots(placed.value);
    if joined.None? {
      return Failure(TypeError);
    }
    var v := ParseBinary(joined.value);
    if v.None? {
      return Failure(ValueError);
    }
    return Success(v.value);
  }

  /** The placement loop: qubit q's character goes to slot `m[q]`. */
  method PlaceQubits(rev: string, m: map<nat, nat>, na: nat) returns (r: Result<seq<Option<char>>>)
    ensures r == PlacePrefix(rev, m, na, na)
  {
    var mapped := new Option<char>[na](_ => None);
    assert mapped[..] == seq(na, _ => None);
    for q := 0 to na
      invariant PlacePrefix(rev, m, na, q) == Success(mapped[..])
    {
      if q >= |rev| || q !in m || m[q] >= na {
        r := if q >= |rev| then Failure(IndexError)
          else if q !in m then Failure(KeyError) else Failure(IndexError);
        assert PlacePrefix(rev, m, na, q + 1) == Failure(r.error);
        PlaceFailureSticks(rev, m, na, q + 1, na);
        return;
      }
      mapped[m[q]] := Some(rev[q]);
    }
    return Success(mapped[..]);
  }

  /** Every qubit 0..na-1 has a mapping to a slot below na. */
  predicate MapsQubits(m: map<nat, nat>, na: nat)
  {
    forall q :: 0 <= q < na ==> q in m && m[q] < na
  }

  /** The slots the qubits below na are sent to. */
  function Image(m: map<nat, nat>, na: nat): set<nat>
  {
    set q | 0 <= q < na && q in m :: m[q]
  }

  /** Every slot below na receives some qubit. */
  predicate CoversSlots(m: map<nat, nat>, na: nat)
  {
    forall s :: 0 <= s < na ==> s in Image(m, na)
  }

  /** No two qubits below na share a slot. */
  predicate InjectiveOn(m: map<nat, nat>, na: nat)
  {
    forall q, q' :: 0 <= q < q' < na && q in m && q' in m ==> m[q] != m[q']
  }

  /** Placing succeeds exactly when each qubit so far has a bit to read and a
      slot inside the state. */
  lemma {:induction false} PlacePrefixSuccess(rev: string, m: map<nat, nat>, na: nat, k: nat)
    ensures PlacePrefix(rev, m, na, k).Success? ==>
      forall q :: 0 <= q < k ==> q < |rev| && q in m && m[q] < na
    ensures (forall q :: 0 <= q < k ==> q < |rev| && q in m && m[q] < na) ==>
      PlacePrefix(rev, m, na, k).Success?
  {
    if k > 0 {
      PlacePrefixSuccess(rev, m, na, k - 1);
    }
  }

  /** A slot is filled exactly when some qubit so far maps to it, and what it
      holds is one of the bits. */
  lemma {:induction false} PlacePrefixFilled(rev: string, m: map<nat, nat>, na: nat, k: nat, s: nat)
    requires PlacePrefix(rev, m, na, k).Success? && s < na
    ensures PlacePrefix(rev, m, na, k).value[s].Some? <==> exists q :: 0 <= q < k && q in m && m[q] == s
    ensures IsBinaryString(rev) && PlacePrefix(rev, m, na, k).value[s].Some? ==>
      IsBinaryChar(PlacePrefix(rev, m, na, k).value[s].value)
  {
    if k > 0 {
      PlacePrefixFilled(rev, m, na, k - 1, s);
    }
  }

  /** A qubit that no later qubit overwrites leaves its bit in its slot. */
  lemma {:induction false} PlacePrefixWrites(rev: string, m: map<nat, nat>, na: nat, k: nat, q: nat)
    requires PlacePrefix(rev, m, na, k).Success? && q < k && q in m
    requires forall q' :: q < q' < k && q' in m ==> m[q'] != m[q]
    ensures m[q] < na && PlacePrefix(rev, m, na, k).value[m[q]] == Some(rev[q])
  {
    PlacePrefixSuccess(rev, m, na, k);
    if q < k - 1 {
      PlacePrefixWrites(rev, m, na, k - 1, q);
    }
  }

  /** Joining succeeds exactly when every slot holds a character, and then
      reads them in order. */
  lemma {:induction false} JoinSlotsMeaning(slots: seq<Option<char>>)
    ensures JoinSlots(slots).Some? <==> forall s :: 0 <= s < |slots| ==> slots[s].Some?
    ensures JoinSlots(slots).Some? ==> forall s :: 0 <= s < |slots| ==> JoinSlots(slots).value[s] == slots[s].value
  {
    if slots != [] {
      JoinSlotsMeaning(slots[..|slots| - 1]);
    }
  }

  /** The reversed bits the mapped converter places: binary, and exactly
      `na` of them when 1 <= na <= the padded length. */
  lemma ReversedSuffix(i: nat, nq: nat, na: nat)
    requires 1 <= na <= |PaddedState(i, nq)|
    ensures |Reverse(LastChars(PaddedState(i, nq), na))| == na
    ensures IsBinaryString(Reverse(LastChars(PaddedState(i, nq), na)))
    ensures LastChars(PaddedState(i, nq), na) == PaddedState(i, nq)[|PaddedState(i, nq)| - na..]
  {
    var p := PaddedState(i, nq);
    PaddedStateBinary(i, nq);
    SuffixOfBinary(p, na);
    ResultFormat.ReverseBinary(p[|p| - na..]);
  }

  /** The mapped converter can compute a state's index exactly when
      1 <= na <= the padded length, every qubit below na is mapped to a slot
      below na, and every slot receives a qubit; the index is then below 2^na. */
  lemma MeasIndexSuccess(i: nat, nq: nat, na: nat, m: map<nat, nat>)
    ensures MeasIndex(i, nq, na, m).Success? ==>
      1 <= na <= |PaddedState(i, nq)| && MapsQubits(m, na) && CoversSlots(m, na)
    ensures 1 <= na <= |PaddedState(i, nq)| && MapsQubits(m, na) && CoversSlots(m, na) ==>
      MeasIndex(i, nq, na, m).Success?
    ensures MeasIndex(i, nq, na, m).Success? ==> MeasIndex(i, nq, na, m).value < Pow2(na)
  {
    var p := PaddedState(i, nq);
    var rev := Reverse(LastChars(p, na));
    PlacePrefixSuccess(rev, m, na, na);
    if na == 0 {
      assert JoinSlots([]) == Some([]);
    } else if na > |p| {
      assert |rev| == |p|;
    } else {
      ReversedSuffix(i, nq, na);
      if PlacePrefix(rev, m, na, na).Success? {
        var slots := PlacePrefix(rev, m, na, na).value;
        JoinSlotsMeaning(slots);
        forall s | 0 <= s < na
          ensures (slots[s].Some? <==> s in Image(m, na))
          ensures slots[s].Some? ==> IsBinaryChar(slots[s].value)
        {
          PlacePrefixFilled(rev, m, na, na, s);
        }
        if JoinSlots(slots).Some? {
          var joined := JoinSlots(slots).value;
          assert IsBinaryString(joined);
          BinValueBound(joined);
        }
      }
    }
  }

  lemma MeasIndexBound(i: nat, nq: nat, na: nat, m: map<nat, nat>)
    ensures MeasIndex(i, nq, na, m).Success? ==> MeasIndex(i, nq, na, m).value < Pow2(na)
  {
    MeasIndexSuccess(i, nq, na, m);
  }

  lemma BitCharInjective(a: nat, b: nat)
    requires a < 2 && b < 2 && BitChar(a) == BitChar(b)
    ensures a == b
  {
  }

  /** Position q of the reversed suffix is bit q of the state. */
  lemma ReversedSuffixBit(i: nat, nq: nat, na: nat, q: nat)
    requires 1 <= na <= |PaddedState(i, nq)| && q < na
    ensures |Reverse(LastChars(PaddedState(i, nq), na))| == na
    ensures Reverse(LastChars(PaddedState(i, nq), na))[q] == BitChar(Bit(i, q))
  {
    var p := PaddedState(i, nq);
    var fs := LastChars(p, na);
    ReversedSuffix(i, nq, na);
    ReverseAt(fs, q);
    assert |fs| == na;
    assert Reverse(fs)[q] == p[|p| - 1 - q];
    PaddedCharFromEnd(i, nq, q);
  }

  /** Character q from the end of the padded state is bit q of the state. */
  lemma PaddedCharFromEnd(i: nat, nq: nat, q: nat)
    requires q < |PaddedState(i, nq)|
    ensures PaddedState(i, nq)[|PaddedState(i, nq)| - 1 - q] == BitChar(Bit(i, q))
  {
    var p := PaddedState(i, nq);
    var k := |p| - 1 - q;
    PaddedStateBinary(i, nq);
    CharIsBit(p, k);
    assert |p| - 1 - k == q;
  }

  /** In the key string, slot m[q] holds qubit q's character of the
      reversed suffix, when no two qubits share a slot. */
  lemma MeasStateSlot(i: nat, nq: nat, na: nat, m: map<nat, nat>, q: nat)
    requires MeasState(i, nq, na, m).Success? && InjectiveOn(m, na) && q < na
    ensures q < |Reverse(LastChars(PaddedState(i, nq), na))|
    ensures q in m && m[q] < |MeasState(i, nq, na, m).value|
    ensures MeasState(i, nq, na, m).value[m[q]] == Reverse(LastChars(PaddedState(i, nq), na))[q]
  {
    var rev := Reverse(LastChars(PaddedState(i, nq), na));
    var slots := PlacePrefix(rev, m, na, na).value;
    PlacePrefixSuccess(rev, m, na, na);
    PlacePrefixWrites(rev, m, na, na, q);
    JoinSlotsMeaning(slots);
  }

  /** In the key string, slot m[q] holds bit q of the state, when no two
      qubits share a slot. */
  lemma MeasStateChar(i: nat, nq: nat, na: nat, m: map<nat, nat>, q: nat)
    requires MeasState(i, nq, na, m).Success? && InjectiveOn(m, na) && q < na
    requires 1 <= na <= |PaddedState(i, nq)|
    ensures q in m && m[q] < |MeasState(i, nq, na, m).value|
    ensures MeasState(i, nq, na, m).value[m[q]] == BitChar(Bit(i, q))
  {
    MeasStateSlot(i, nq, na, m, q);
    ReversedSuffixBit(i, nq, na, q);
  }

  /** The key string is binary and has `na` characters. */
  lemma MeasStateBinary(i: nat, nq: nat, na: nat, m: map<nat, nat>)
    requires MeasState(i, nq, na, m).Success? && 1 <= na <= |PaddedState(i, nq)|
    ensures |MeasState(i, nq, na, m).value| == na
    ensures IsBinaryString(MeasState(i, nq, na, m).value)
  {
    var rev := Reverse(LastChars(PaddedState(i, nq), na));
    ReversedSuffix(i, nq, na);
    var slots := PlacePrefix(rev, m, na, na).value;
    JoinSlotsMeaning(slots);
    forall s | 0 <= s < na ensures IsBinaryChar(slots[s].value) {
      PlacePrefixFilled(rev, m, na, na, s);
    }
  }

  /** Qubit q's bit of the state lands at slot m[q] of the key string, that
      is at bit na-1-m[q] of the index, when no two qubits share a slot. */
  lemma MeasIndexBit(i: nat, nq: nat, na: nat, m: map<nat, nat>, q: nat)
    requires MeasIndex(i, nq, na, m).Success? && InjectiveOn(m, na) && q < na
    ensures q in m && m[q] < na
    ensures Bit(MeasIndex(i, nq, na, m).value, na - 1 - m[q]) == Bit(i, q)
  {
    MeasIndexSuccess(i, nq, na, m);
    MeasStateBinary(i, nq, na, m);
    MeasStateChar(i, nq, na, m, q);
    var key := MeasState(i, nq, na, m).value;
    CharIsBit(key, m[q]);
    BitCharInjective(Bit(BinValue(key), na - 1 - m[q]), Bit(i, q));
  }

  lemma MeasTargetsAt(n: nat, nq: nat, na: nat, m: map<nat, nat>, i: nat)
    requires i < n
    ensures MeasTargets(n, nq, na, m)[i] == MeasIndex(i, nq, na, m)
  {
  }

  function MeasTargets(n: nat, nq: nat, na: nat, m: map<nat, nat>): (t: seq<Result<nat>>)
    ensures |t| == n
  {
    seq(n, (i: int) requires 0 <= i => MeasIndex(i, nq, na, m))
  }

  /** `qiskit_statevector_to_probabilities` of `utils/formatting.py` on the
      squared magnitudes `probs`. */
  function MappedProbabilities(probs: seq<real>, na: nat, m: map<nat, nat>): Result<seq<real>>
  {
    if |probs| == 0 then Failure(ValueError)
    else ScatterPrefix(probs, MeasTargets(|probs|, FloorLog2(|probs|), na, m), Pow2(na), |probs|)
  }

  method MappedStatevectorToProbabilities(probs: seq<real>, na: nat, m: map<nat, nat>) returns (r: Result<seq<real>>)
    ensures r == MappedProbabilities(probs, na, m)
  {
    var filtered := new real[Pow2(na)](_ => 0.0);
    assert filtered[..] == seq(Pow2(na), _ => 0.0);
    if |probs| == 0 {
      return Failure(ValueError);
    }
    var nq := FloorLog2(|probs|);
    ghost var targets := MeasTargets(|probs|, nq, na, m);
    r := MapAll(filtered, probs, targets, nq, na, m);
  }

  /** The mapped converter's loop over all states. */
  method MapAll(filtered: array<real>, probs: seq<real>, ghost targets: seq<Result<nat>>, nq: nat, na: nat,
                m: map<nat, nat>) returns (r: Result<seq<real>>)
    requires targets == MeasTargets(|probs|, nq, na, m) && filtered.Length == Pow2(na)
    requires filtered[..] == seq(Pow2(na), _ => 0.0)
    modifies filtered
    ensures r == ScatterPrefix(probs, targets, Pow2(na), |probs|)
  {
    for i := 0 to |probs|
      invariant ScatterPrefix(probs, targets, filtered.Length, i) == Success(filtered[..])
    {
      var err := MapState(filtered, probs, targets, i, nq, na, m);
      if err.Some? {
        return Failure(err.value);
      }
    }
    return Success(filtered[..]);
  }

  /** One pass of the mapped converter's loop: state i's index, then its mass. */
  method MapState(filtered: array<real>, probs: seq<real>, ghost targets: seq<Result<nat>>, i: nat, nq: nat, na: nat,
                  m: map<nat, nat>) returns (err: Option<PyError>)
    requires i < |probs| && targets == MeasTargets(|probs|, nq, na, m) && filtered.Length == Pow2(na)
    requires ScatterPrefix(probs, targets, filtered.Length, i) == Success(filtered[..])
    modifies filtered
    ensures err.None? ==> ScatterPrefix(probs, targets, filtered.Length, i + 1) == Success(filtered[..])
    ensures err.Some? ==> ScatterPrefix(probs, targets, filtered.Length, |probs|) == Failure(err.value)
  {
    MeasTargetsAt(|probs|, nq, na, m, i);
    var t := MappedStateIndex(i, nq, na, m);
    if t.Failure? {
      ScatterFailureSticks(probs, targets, filtered.Length, i + 1, |probs|);
      return Some(t.error);
    }
    MeasIndexBound(i, nq, na, m);
    AccumulateAt(filtered, probs, targets, i, t.value);
    return None;
  }

  /** The mapped converter succeeds exactly on a non-empty vector with
      1 <= na <= max(1, log2 n) and a mapping that sends the qubits below na
      onto all slots below na; then it has 2^na entries, entry j is the mass
      of the states whose index is j, and the total mass is kept. */
  lemma MappedProbabilitiesMeaning(probs: seq<real>, na: nat, m: map<nat, nat>)
    ensures MappedProbabilities(probs, na, m).Success? ==>
      |probs| > 0 && 1 <= na && (na == 1 || na <= FloorLog2(|probs|)) && MapsQubits(m, na) && CoversSlots(m, na)
    ensures |probs| > 0 && 1 <= na && (na == 1 || na <= FloorLog2(|probs|)) && MapsQubits(m, na) && CoversSlots(m, na) ==>
      MappedProbabilities(probs, na, m).Success?
    ensures MappedProbabilities(probs, na, m).Success? ==>
      |MappedProbabilities(probs, na, m).value| == Pow2(na) &&
      Sum(MappedProbabilities(probs, na, m).value) == Sum(probs) &&
      forall j :: 0 <= j < Pow2(na) ==>
        MappedProbabilities(probs, na, m).value[j] == MassAt(probs, MeasTargets(|probs|, FloorLog2(|probs|), na, m), j, |probs|)
  {
    if |probs| > 0 {
      var nq := FloorLog2(|probs|);
      var targets := MeasTargets(|probs|, nq, na, m);
      ScatterSuccess(probs, targets, Pow2(na), |probs|);
      if 1 <= na && (na == 1 || na <= nq) && MapsQubits(m, na) && CoversSlots(m, na) {
        MeasTargetsFit(|probs|, nq, na, m);
      }
      if MappedProbabilities(probs, na, m).Success? {
        MeasTargetsFirst(|probs|, nq, na, m);
        ScatterSummary(probs, targets, Pow2(na));
      }
    }
  }

  /** With a good mapping every state has an index below 2^na. */
  lemma MeasTargetsFit(n: nat, nq: nat, na: nat, m: map<nat, nat>)
    requires 1 <= na && (na == 1 || na <= nq) && MapsQubits(m, na) && CoversSlots(m, na)
    ensures forall i :: 0 <= i < n ==> MeasTargets(n, nq, na, m)[i].Success? && MeasTargets(n, nq, na, m)[i].value < Pow2(na)
  {
    forall i | 0 <= i < n ensures MeasTargets(n, nq, na, m)[i].Success? && MeasTargets(n, nq, na, m)[i].value < Pow2(na) {
      MeasTargetsAt(n, nq, na, m, i);
      PaddedStateShortest(i, nq);
      MeasIndexSuccess(i, nq, na, m);
    }
  }

  /** State 0 has the shortest padded string, so its success needs a good mapping. */
  lemma MeasTargetsFirst(n: nat, nq: nat, na: nat, m: map<nat, nat>)
    requires n > 0 && MeasTargets(n, nq, na, m)[0].Success?
    ensures 1 <= na && (na == 1 || na <= nq) && MapsQubits(m, na) && CoversSlots(m, na)
  {
    MeasTargetsAt(n, nq, na, m, 0);
    PaddedStateShortest(0, nq);
    MeasIndexSuccess(0, nq, na, m);
  }
}
