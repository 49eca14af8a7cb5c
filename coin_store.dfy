/** The live coin set and the coin-record store of the simulated node:
    the filters the node applies to them, the record update a spend makes,
    and the consistency invariant between the two. */
module CoinStore {
  import opened Types

  // ---------------------------------------------------------------------
  // The live coin set
  // ---------------------------------------------------------------------

  /** How many coins of `s` carry the name `n`. */
  function CountNamed(name: Coin -> Bytes32, s: seq<Coin>, n: Bytes32): nat
  {
    if s == [] then 0
    else (if name(s[0]) == n then 1 else 0) + CountNamed(name, s[1..], n)
  }

  /** The coins of `s`, in their order, whose name is not in `ns`. */
  function Without(name: Coin -> Bytes32, s: seq<Coin>, ns: seq<Bytes32>): (r: seq<Coin>)
    ensures forall x :: x in r <==> x in s && name(x) !in ns
    ensures |r| <= |s|
  {
    if s == [] then []
    else
      assert forall x :: x in s <==> x == s[0] || x in s[1..];
      if name(s[0]) in ns then Without(name, s[1..], ns)
      else [s[0]] + Without(name, s[1..], ns)
  }

  /** The head and tail of a concatenation whose left part is not empty. */
  lemma ConsTail<T>(a: seq<T>, b: seq<T>)
    requires a != []
    ensures a + b != [] && (a + b)[0] == a[0] && (a + b)[1..] == a[1..] + b
  {
  }

  /** Filtering keeps order and multiplicity: it distributes over a
      concatenation of coin lists. */
  lemma {:induction false} WithoutAppend(name: Coin -> Bytes32, a: seq<Coin>, b: seq<Coin>, ns: seq<Bytes32>)
    ensures Without(name, a + b, ns) == Without(name, a, ns) + Without(name, b, ns)
  {
    if a == [] {
      assert a + b == b;
    } else {
      var t := a[1..];
      WithoutAppend(name, t, b, ns);
      ConsTail(a, b);
      if name(a[0]) !in ns {
        calc {
          Without(name, a + b, ns);
          [a[0]] + Without(name, t + b, ns);
          [a[0]] + (Without(name, t, ns) + Without(name, b, ns));
          ([a[0]] + Without(name, t, ns)) + Without(name, b, ns);
        }
      }
    }
  }

  /** Filtering out one name drops exactly the coins that carry it. */
  lemma {:induction false} WithoutOneLength(name: Coin -> Bytes32, s: seq<Coin>, n: Bytes32)
    ensures |Without(name, s, [n])| == |s| - CountNamed(name, s, n)
  {
    if s != [] {
      WithoutOneLength(name, s[1..], n);
    }
  }

  /** After filtering out the names `ns`, a name of `ns` is gone and every
      other name is counted as often as before. */
  lemma {:induction false} CountWithout(name: Coin -> Bytes32, s: seq<Coin>, ns: seq<Bytes32>, m: Bytes32)
    ensures CountNamed(name, Without(name, s, ns), m) == if m in ns then 0 else CountNamed(name, s, m)
  {
    if s != [] {
      CountWithout(name, s[1..], ns, m);
      if name(s[0]) !in ns {
        assert ([s[0]] + Without(name, s[1..], ns))[1..] == Without(name, s[1..], ns);
      }
    }
  }

  /** Filtering out one more name is filtering out the extended list. */
  lemma {:induction false} WithoutMore(name: Coin -> Bytes32, s: seq<Coin>, ns: seq<Bytes32>, n: Bytes32)
    ensures Without(name, Without(name, s, ns), [n]) == Without(name, s, ns + [n])
  {
    if s != [] {
      WithoutMore(name, s[1..], ns, n);
      assert name(s[0]) in ns + [n] <==> name(s[0]) in ns || name(s[0]) == n;
      if name(s[0]) !in ns {
        assert ([s[0]] + Without(name, s[1..], ns))[1..] == Without(name, s[1..], ns);
      }
    }
  }

  /** Filtering out no name keeps every coin. */
  lemma {:induction false} WithoutNothing(name: Coin -> Bytes32, s: seq<Coin>)
    ensures Without(name, s, []) == s
  {
    if s != [] {
      WithoutNothing(name, s[1..]);
    }
  }

  /** The names of `cs`, in order. */
  function Names(name: Coin -> Bytes32, cs: seq<Coin>): (r: seq<Bytes32>)
    ensures |r| == |cs|
    ensures forall i :: 0 <= i < |cs| ==> r[i] == name(cs[i])
  {
    if cs == [] then [] else Names(name, cs[..|cs| - 1]) + [name(cs[|cs| - 1])]
  }

  /** The coins of `s`, in their order, that are not in `cs`. */
  function Minus(s: seq<Coin>, cs: seq<Coin>): (r: seq<Coin>)
    ensures forall x :: x in r <==> x in s && x !in cs
  {
    if s == [] then []
    else
      assert forall x :: x in s <==> x == s[0] || x in s[1..];
      if s[0] in cs then Minus(s[1..], cs) else [s[0]] + Minus(s[1..], cs)
  }

  /** When names identify coins, filtering out the names of `cs` is removing
      the coins `cs` themselves. */
  lemma {:induction false} WithoutNamesIsMinus(name: Coin -> Bytes32, s: seq<Coin>, cs: seq<Coin>)
    requires Injective(name)
    ensures Without(name, s, Names(name, cs)) == Minus(s, cs)
  {
    if s != [] {
      WithoutNamesIsMinus(name, s[1..], cs);
      var ns := Names(name, cs);
      if name(s[0]) in ns {
        var i :| 0 <= i < |ns| && ns[i] == name(s[0]);
        assert cs[i] == s[0];
      }
    }
  }

  /** The precondition a farming round needs: every removal's name occurs
      exactly once in the live coin set, and no two removals share a name. */
  predicate Removable(name: Coin -> Bytes32, coins: seq<Coin>, removals: seq<Coin>)
  {
    && (forall i :: 0 <= i < |removals| ==> CountNamed(name, coins, name(removals[i])) == 1)
    && (forall i, j :: 0 <= i < j < |removals| ==> name(removals[i]) != name(removals[j]))
  }

  /** Under `Removable`, each removal still occurs exactly once after the
      earlier removals have been filtered out, and filtering it out too
      filters out the first `i + 1` removals. */
  lemma RemovableStep(name: Coin -> Bytes32, coins: seq<Coin>, removals: seq<Coin>, i: nat)
    requires Removable(name, coins, removals)
    requires i < |removals|
    ensures CountNamed(name, Without(name, coins, Names(name, removals[..i])), name(removals[i])) == 1
    ensures Without(name, Without(name, coins, Names(name, removals[..i])), [name(removals[i])])
            == Without(name, coins, Names(name, removals[..i + 1]))
  {
    CountWithout(name, coins, Names(name, removals[..i]), name(removals[i]));
    WithoutMore(name, coins, Names(name, removals[..i]), name(removals[i]));
    assert removals[..i + 1][..i] == removals[..i];
  }

  /** Under `Removable`, filtering out every removal's name drops exactly
      one live coin per removal. */
  lemma {:induction false} RemovableLength(name: Coin -> Bytes32, coins: seq<Coin>, removals: seq<Coin>)
    requires Removable(name, coins, removals)
    ensures |Without(name, coins, Names(name, removals))| == |coins| - |removals|
  {
    if removals == [] {
      WithoutNothing(name, coins);
    } else {
      var i := |removals| - 1;
      var init := removals[..i];
      assert Removable(name, coins, init) by {
        assert forall k :: 0 <= k < |init| ==> init[k] == removals[k];
      }
      RemovableLength(name, coins, init);
      RemovableStep(name, coins, removals, i);
      WithoutOneLength(name, Without(name, coins, Names(name, init)), name(removals[i]));
      assert removals[..i + 1] == removals;
    }
  }

  // ---------------------------------------------------------------------
  // Filtering coins on their fields
  // ---------------------------------------------------------------------

  /** One key/value pair of a coin filter: a Coin field and the value it
      must equal. */
  datatype FieldEq = ParentCoinInfo(parent: Bytes32) | PuzzleHash(hash: Bytes32) | Amount(value: nat)

  predicate Matches(c: Coin, f: FieldEq)
  {
    match f
    case ParentCoinInfo(p) => c.parentCoinInfo == p
    case PuzzleHash(h) => c.puzzleHash == h
    case Amount(v) => c.amount == v
  }

  predicate MatchesAll(c: Coin, fs: seq<FieldEq>)
  {
    forall i :: 0 <= i < |fs| ==> Matches(c, fs[i])
  }

  /** One filtering pass: the coins of `s`, in order, that match `f`. */
  function Keep(s: seq<Coin>, f: FieldEq): (r: seq<Coin>)
    ensures forall x :: x in r <==> x in s && Matches(x, f)
  {
    if s == [] then []
    else
      assert forall x :: x in s <==> x == s[0] || x in s[1..];
      if Matches(s[0], f) then [s[0]] + Keep(s[1..], f) else Keep(s[1..], f)
  }

  /** The conjunctive query: the coins of `s`, in order, that match every
      pair of `fs`. */
  function Select(s: seq<Coin>, fs: seq<FieldEq>): (r: seq<Coin>)
    ensures forall x :: x in r <==> x in s && MatchesAll(x, fs)
    ensures |r| <= |s|
  {
    if s == [] then []
    else
      assert forall x :: x in s <==> x == s[0] || x in s[1..];
      if MatchesAll(s[0], fs) then [s[0]] + Select(s[1..], fs) else Select(s[1..], fs)
  }

  /** An empty filter selects every coin, in order. */
  lemma {:induction false} SelectNoFilter(s: seq<Coin>)
    ensures Select(s, []) == s
  {
    if s != [] {
      SelectNoFilter(s[1..]);
    }
  }

  /** One more filtering pass over a selection is the selection with one
      more pair. */
  lemma {:induction false} KeepSelect(s: seq<Coin>, fs: seq<FieldEq>, f: FieldEq)
    ensures Keep(Select(s, fs), f) == Select(s, fs + [f])
  {
    if s != [] {
      KeepSelect(s[1..], fs, f);
      assert MatchesAll(s[0], fs + [f]) <==> MatchesAll(s[0], fs) && Matches(s[0], f) by {
        assert forall i :: 0 <= i < |fs| ==> (fs + [f])[i] == fs[i];
        assert (fs + [f])[|fs|] == f;
      }
      if MatchesAll(s[0], fs) {
        assert ([s[0]] + Select(s[1..], fs))[1..] == Select(s[1..], fs);
      }
    }
  }

  /** Selection keeps order: selecting from a concatenation concatenates the
      selections. */
  lemma {:induction false} SelectAppend(a: seq<Coin>, b: seq<Coin>, fs: seq<FieldEq>)
    ensures Select(a + b, fs) == Select(a, fs) + Select(b, fs)
  {
    if a != [] {
      var t := a[1..];
      SelectAppend(t, b, fs);
      ConsTail(a, b);
      if MatchesAll(a[0], fs) {
        calc {
          Select(a + b, fs);
          [a[0]] + Select(t + b, fs);
          [a[0]] + (Select(t, fs) + Select(b, fs));
          ([a[0]] + Select(t, fs)) + Select(b, fs);
        }
      }
    } else {
      assert a + b == b;
    }
  }

  /** Only the pairs of a filter matter, not their order or repetition (a
      dictionary's iteration order does not change the result). */
  lemma {:induction false} SelectSamePairs(s: seq<Coin>, fs: seq<FieldEq>, gs: seq<FieldEq>)
    requires forall f :: f in fs <==> f in gs
    ensures Select(s, fs) == Select(s, gs)
  {
    if s != [] {
      SelectSamePairs(s[1..], fs, gs);
      assert MatchesAll(s[0], fs) <==> MatchesAll(s[0], gs) by {
        if MatchesAll(s[0], fs) {
          forall j | 0 <= j < |gs| ensures Matches(s[0], gs[j]) {
            assert gs[j] in fs;
          }
        }
        if MatchesAll(s[0], gs) {
          forall j | 0 <= j < |fs| ensures Matches(s[0], fs[j]) {
            assert fs[j] in gs;
          }
        }
      }
    }
  }

  // ---------------------------------------------------------------------
  // The coin-record store
  // ---------------------------------------------------------------------

  /** The record add_coin creates: confirmed now, unspent, not coinbase. */
  function NewRecord(c: Coin, height: nat, timestamp: nat): CoinRecord
  {
    CoinRecord(c, height, 0, false, false, timestamp)
  }

  /** The record remove_coin puts in place of `r`. */
  function Spent(r: CoinRecord, height: nat, timestamp: nat): CoinRecord
  {
    CoinRecord(r.coin, r.confirmedBlockIndex, height, true, r.coinbase, timestamp)
  }

  /** The records of `s`, in order, whose coin is `c`. */
  function Matching(s: seq<CoinRecord>, c: Coin): (r: seq<CoinRecord>)
    ensures forall x :: x in r <==> x in s && x.coin == c
    ensures |r| <= |s|
  {
    if s == [] then []
    else
      assert forall x :: x in s <==> x == s[0] || x in s[1..];
      if s[0].coin == c then [s[0]] + Matching(s[1..], c) else Matching(s[1..], c)
  }

  /** The records of `s`, in order, whose coin is not `c`. */
  function Others(s: seq<CoinRecord>, c: Coin): (r: seq<CoinRecord>)
    ensures forall x :: x in r <==> x in s && x.coin != c
    ensures |r| <= |s|
  {
    if s == [] then []
    else
      assert forall x :: x in s <==> x == s[0] || x in s[1..];
      if s[0].coin != c then [s[0]] + Others(s[1..], c) else Others(s[1..], c)
  }

  /** Every record of `ms` marked spent at `height`, in order. */
  function SpendAll(ms: seq<CoinRecord>, height: nat, timestamp: nat): (r: seq<CoinRecord>)
    ensures |r| == |ms|
    ensures forall i :: 0 <= i < |ms| ==> r[i] == Spent(ms[i], height, timestamp)
  {
    if ms == [] then [] else SpendAll(ms[..|ms| - 1], height, timestamp) + [Spent(ms[|ms| - 1], height, timestamp)]
  }

  /** The record store after spending `c`: the records of other coins in
      their order, followed by the spent copies of the records of `c`. */
  function SpendRecords(s: seq<CoinRecord>, c: Coin, height: nat, timestamp: nat): seq<CoinRecord>
  {
    Others(s, c) + SpendAll(Matching(s, c), height, timestamp)
  }

  /** Every record goes either to `Matching` or to `Others`. */
  lemma {:induction false} PartitionLength(s: seq<CoinRecord>, c: Coin)
    ensures |Matching(s, c)| + |Others(s, c)| == |s|
  {
    if s != [] {
      PartitionLength(s[1..], c);
    }
  }

  lemma {:induction false} OthersAppend(a: seq<CoinRecord>, b: seq<CoinRecord>, c: Coin)
    ensures Others(a + b, c) == Others(a, c) + Others(b, c)
  {
    if a != [] {
      var t := a[1..];
      OthersAppend(t, b, c);
      ConsTail(a, b);
      if a[0].coin != c {
        calc {
          Others(a + b, c);
          [a[0]] + Others(t + b, c);
          [a[0]] + (Others(t, c) + Others(b, c));
          ([a[0]] + Others(t, c)) + Others(b, c);
        }
      }
    } else {
      assert a + b == b;
    }
  }

  lemma {:induction false} NoMatchingIsIdentity(s: seq<CoinRecord>, c: Coin)
    requires Matching(s, c) == []
    ensures Others(s, c) == s
  {
    if s != [] {
      NoMatchingIsIdentity(s[1..], c);
    }
  }

  /** The spent copies of records of `c` are records of `c`, all spent at
      `height` and stamped `timestamp`. */
  lemma SpendAllOfCoin(ms: seq<CoinRecord>, c: Coin, height: nat, timestamp: nat)
    requires forall x :: x in ms ==> x.coin == c
    ensures forall y :: y in SpendAll(ms, height, timestamp) ==>
              y.coin == c && y.spent && y.spentBlockIndex == height && y.timestamp == timestamp
    ensures Others(SpendAll(ms, height, timestamp), c) == []
  {
    var sp := SpendAll(ms, height, timestamp);
    forall y | y in sp ensures y.coin == c {
      var i :| 0 <= i < |sp| && sp[i] == y;
      assert ms[i] in ms;
    }
    if Others(sp, c) != [] {
      assert Others(sp, c)[0] in Others(sp, c);
    }
  }

  /** What spending `c` does to the store: the size is kept, the records of
      other coins are kept in order, every record of `c` is replaced by its
      spent copy (spent at `height`, stamped `timestamp`, same confirmation
      height and coinbase flag), and nothing changes when `c` has no record. */
  lemma SpendRecordsEffect(s: seq<CoinRecord>, c: Coin, height: nat, timestamp: nat)
    ensures |SpendRecords(s, c, height, timestamp)| == |s|
    ensures Others(SpendRecords(s, c, height, timestamp), c) == Others(s, c)
    ensures forall x :: x in s && x.coin == c ==> Spent(x, height, timestamp) in SpendRecords(s, c, height, timestamp)
    ensures forall y :: y in SpendRecords(s, c, height, timestamp) && y.coin == c ==>
              && y.spent && y.spentBlockIndex == height && y.timestamp == timestamp
              && exists x :: x in s && x.coin == c && y == Spent(x, height, timestamp)
    ensures Matching(s, c) == [] ==> SpendRecords(s, c, height, timestamp) == s
  {
    PartitionLength(s, c);
    SpendRecordsKeepsOthers(s, c, height, timestamp);
    SpendRecordsSpendsMatching(s, c, height, timestamp);
    if Matching(s, c) == [] {
      NoMatchingIsIdentity(s, c);
    }
  }

  lemma SpendRecordsKeepsOthers(s: seq<CoinRecord>, c: Coin, height: nat, timestamp: nat)
    ensures Others(SpendRecords(s, c, height, timestamp), c) == Others(s, c)
  {
    var sp := SpendAll(Matching(s, c), height, timestamp);
    OthersAppend(Others(s, c), sp, c);
    SpendAllOfCoin(Matching(s, c), c, height, timestamp);
    OthersOthers(s, c);
  }

  lemma {:induction false} OthersOthers(s: seq<CoinRecord>, c: Coin)
    ensures Others(Others(s, c), c) == Others(s, c)
  {
    if s != [] {
      OthersOthers(s[1..], c);
      if s[0].coin != c {
        assert ([s[0]] + Others(s[1..], c))[1..] == Others(s[1..], c);
      }
    }
  }

  lemma SpendRecordsSpendsMatching(s: seq<CoinRecord>, c: Coin, height: nat, timestamp: nat)
    ensures forall x :: x in s && x.coin == c ==> Spent(x, height, timestamp) in SpendRecords(s, c, height, timestamp)
    ensures forall y :: y in SpendRecords(s, c, height, timestamp) && y.coin == c ==>
              && y.spent && y.spentBlockIndex == height && y.timestamp == timestamp
              && exists x :: x in s && x.coin == c && y == Spent(x, height, timestamp)
  {
    var ms := Matching(s, c);
    var sp := SpendAll(ms, height, timestamp);
    var all := SpendRecords(s, c, height, timestamp);
    assert all == Others(s, c) + sp;
    SpendAllOfCoin(ms, c, height, timestamp);
    forall x | x in s && x.coin == c ensures Spent(x, height, timestamp) in all {
      var i :| 0 <= i < |ms| && ms[i] == x;
      assert sp[i] == Spent(x, height, timestamp);
    }
    forall y | y in all && y.coin == c
      ensures y.spent && y.spentBlockIndex == height && y.timestamp == timestamp
      ensures exists x :: x in s && x.coin == c && y == Spent(x, height, timestamp)
    {
      assert y !in Others(s, c);
      assert y in sp;
      var i :| 0 <= i < |sp| && sp[i] == y;
      assert ms[i] in ms;
    }
  }

  /** Python's `list.remove`: drop the first element equal to `x`. */
  function RemoveFirst<T(==)>(s: seq<T>, x: T): (r: seq<T>)
    requires x in s
    ensures |r| == |s| - 1
    ensures multiset(r) == multiset(s) - multiset{x}
  {
    if s[0] == x then
      assert s == [s[0]] + s[1..];
      s[1..]
    else
      assert s == [s[0]] + s[1..];
      [s[0]] + RemoveFirst(s[1..], x)
  }

  /** The position of the first element of `s` equal to `x`. */
  function FirstIndex<T(==)>(s: seq<T>, x: T): (k: nat)
    requires x in s
    ensures k < |s| && s[k] == x && x !in s[..k]
  {
    if s[0] == x then 0
    else
      assert s == [s[0]] + s[1..];
      var k := FirstIndex(s[1..], x);
      assert s[..k + 1] == [s[0]] + s[1..][..k];
      k + 1
  }

  /** The element `list.remove` drops is the first one equal to `x`, and
      the elements before and after it keep their order. */
  lemma {:induction false} RemoveFirstIsFirst<T>(s: seq<T>, x: T)
    requires x in s
    ensures RemoveFirst(s, x) == s[..FirstIndex(s, x)] + s[FirstIndex(s, x) + 1..]
  {
    if s[0] != x {
      var t := s[1..];
      assert s == [s[0]] + t;
      RemoveFirstIsFirst(t, x);
      var k := FirstIndex(t, x);
      assert s[..k + 1] == [s[0]] + t[..k];
      assert s[k + 1 + 1..] == t[k + 1..];
    }
  }

  /** The first occurrence of an element of `a` lies in `a`. */
  lemma {:induction false} RemoveFirstAppend<T>(a: seq<T>, b: seq<T>, x: T)
    requires x in a
    ensures RemoveFirst(a + b, x) == RemoveFirst(a, x) + b
  {
    assert (a + b)[0] == a[0];
    if a[0] != x {
      assert (a + b)[1..] == a[1..] + b;
      RemoveFirstAppend(a[1..], b, x);
    } else {
      assert (a + b)[1..] == a[1..] + b;
    }
  }

  /** Removing a record of `c` leaves the records of other coins alone. */
  lemma {:induction false} OthersRemoveFirst(s: seq<CoinRecord>, x: CoinRecord, c: Coin)
    requires x in s && x.coin == c
    ensures Others(RemoveFirst(s, x), c) == Others(s, c)
  {
    if s[0] != x {
      OthersRemoveFirst(s[1..], x, c);
      assert ([s[0]] + RemoveFirst(s[1..], x))[1..] == RemoveFirst(s[1..], x);
    }
  }

  /** Removing a record of `c` removes it from the records of `c`. */
  lemma {:induction false} MatchingRemoveFirst(s: seq<CoinRecord>, x: CoinRecord, c: Coin)
    requires x in s && x.coin == c
    ensures x in Matching(s, c)
    ensures Matching(RemoveFirst(s, x), c) == RemoveFirst(Matching(s, c), x)
  {
    if s[0] != x {
      MatchingRemoveFirst(s[1..], x, c);
      assert ([s[0]] + RemoveFirst(s[1..], x))[1..] == RemoveFirst(s[1..], x);
    }
  }

  /** One turn of remove_coin's record loop: `x`, the next matching record,
      is still among the not-yet-updated records `rest` (ahead of the updated
      `tail`), so `list.remove` takes it from `rest`, leaving the records of
      other coins alone. */
  lemma SpendLoopStep(rest: seq<CoinRecord>, tail: seq<CoinRecord>, x: CoinRecord, y: CoinRecord, c: Coin, pending: seq<CoinRecord>)
    requires multiset(Matching(rest, c)) == multiset([x] + pending)
    ensures x in rest && x.coin == c
    ensures RemoveFirst(rest + tail, x) + [y] == RemoveFirst(rest, x) + (tail + [y])
    ensures Others(RemoveFirst(rest, x), c) == Others(rest, c)
    ensures multiset(Matching(RemoveFirst(rest, x), c)) == multiset(pending)
  {
    assert x in multiset(Matching(rest, c));
    assert x in Matching(rest, c);
    RemoveFirstAppend(rest, tail, x);
    assert RemoveFirst(rest, x) + tail + [y] == RemoveFirst(rest, x) + (tail + [y]);
    OthersRemoveFirst(rest, x, c);
    MatchingRemoveFirst(rest, x, c);
  }

  /** The state of remove_coin's record loop after `i` turns, starting from
      the store `records0`: `records` is `rest`, the records not yet touched,
      followed by the spent copies of the first `i` records of `c`; `rest`
      holds the records of other coins as they were, and exactly the records
      of `c` still to update. */
  ghost predicate SpendLoopInv(records: seq<CoinRecord>, rest: seq<CoinRecord>, matching: seq<CoinRecord>, i: nat,
                               c: Coin, height: nat, timestamp: nat, records0: seq<CoinRecord>)
  {
    && matching == Matching(records0, c)
    && i <= |matching|
    && records == rest + SpendAll(matching[..i], height, timestamp)
    && Others(rest, c) == Others(records0, c)
    && multiset(Matching(rest, c)) == multiset(matching[i..])
  }

  /** Each turn of the loop (remove the next record of `c`, append its spent
      copy) keeps the loop state. */
  lemma SpendLoopNext(records: seq<CoinRecord>, rest: seq<CoinRecord>, matching: seq<CoinRecord>, i: nat,
                      c: Coin, height: nat, timestamp: nat, records0: seq<CoinRecord>)
    requires SpendLoopInv(records, rest, matching, i, c, height, timestamp, records0)
    requires i < |matching|
    ensures matching[i].coin == c && matching[i] in records && matching[i] in rest
    ensures SpendLoopInv(RemoveFirst(records, matching[i]) + [Spent(matching[i], height, timestamp)],
                         RemoveFirst(rest, matching[i]), matching, i + 1, c, height, timestamp, records0)
  {
    var x := matching[i];
    var done := SpendAll(matching[..i], height, timestamp);
    assert matching[i..] == [x] + matching[i + 1..];
    SpendLoopStep(rest, done, x, Spent(x, height, timestamp), c, matching[i + 1..]);
    SpendAllNext(matching, i, height, timestamp);
  }

  /** Spending one more record of a list appends its spent copy. */
  lemma SpendAllNext(ms: seq<CoinRecord>, i: nat, height: nat, timestamp: nat)
    requires i < |ms|
    ensures SpendAll(ms[..i + 1], height, timestamp) == SpendAll(ms[..i], height, timestamp) + [Spent(ms[i], height, timestamp)]
  {
    assert ms[..i + 1][..i] == ms[..i];
  }

  /** When the loop has run over every record of `c`, the store is the one
      `SpendRecords` describes. */
  lemma SpendLoopDone(records: seq<CoinRecord>, rest: seq<CoinRecord>, matching: seq<CoinRecord>,
                      c: Coin, height: nat, timestamp: nat, records0: seq<CoinRecord>)
    requires SpendLoopInv(records, rest, matching, |matching|, c, height, timestamp, records0)
    ensures records == SpendRecords(records0, c, height, timestamp)
  {
    assert matching[..|matching|] == matching;
    assert matching[|matching|..] == [];
    assert |Matching(rest, c)| == |multiset(Matching(rest, c))| == 0;
    NoMatchingIsIdentity(rest, c);
  }

  /** The records of `s`, in order, whose coin is named `n`; when there is
      one, the first of them is the first such record of `s`. */
  function RecordsNamed(name: Coin -> Bytes32, s: seq<CoinRecord>, n: Bytes32): (r: seq<CoinRecord>)
    ensures forall x :: x in r <==> x in s && name(x.coin) == n
    ensures |r| > 0 ==> exists k :: 0 <= k < |s| && s[k] == r[0] && name(s[k].coin) == n
                          && forall j :: 0 <= j < k ==> name(s[j].coin) != n
  {
    if s == [] then []
    else
      assert forall x :: x in s <==> x == s[0] || x in s[1..];
      if name(s[0].coin) == n then [s[0]] + RecordsNamed(name, s[1..], n)
      else
        var r := RecordsNamed(name, s[1..], n);
        if |r| > 0 then
          var k :| 0 <= k < |s[1..]| && s[1..][k] == r[0] && name(s[1..][k].coin) == n
                   && forall j :: 0 <= j < k ==> name(s[1..][j].coin) != n;
          assert s[k + 1] == r[0] && forall j :: 0 <= j < k + 1 ==> name(s[j].coin) != n;
          r
        else r
  }

  /** The store after spending each coin of `cs` in turn. */
  function SpendEach(s: seq<CoinRecord>, cs: seq<Coin>, height: nat, timestamp: nat): seq<CoinRecord>
  {
    if cs == [] then s
    else SpendRecords(SpendEach(s, cs[..|cs| - 1], height, timestamp), cs[|cs| - 1], height, timestamp)
  }

  /** The records add_coin appends for each coin of `cs`, in order. */
  function NewRecords(cs: seq<Coin>, height: nat, timestamp: nat): (r: seq<CoinRecord>)
    ensures |r| == |cs|
    ensures forall i :: 0 <= i < |cs| ==> r[i] == NewRecord(cs[i], height, timestamp)
  {
    if cs == [] then [] else NewRecords(cs[..|cs| - 1], height, timestamp) + [NewRecord(cs[|cs| - 1], height, timestamp)]
  }

  /** Adding `a` then `b` after the records `s` appends the records of
      `a + b`. */
  lemma {:induction false} NewRecordsAppend(s: seq<CoinRecord>, a: seq<Coin>, b: seq<Coin>, height: nat, timestamp: nat)
    ensures s + NewRecords(a, height, timestamp) + NewRecords(b, height, timestamp) == s + NewRecords(a + b, height, timestamp)
  {
    if b != [] {
      NewRecordsAppend(s, a, b[..|b| - 1], height, timestamp);
      assert (a + b)[..|a + b| - 1] == a + b[..|b| - 1];
    } else {
      assert a + b == a;
    }
  }

  // ---------------------------------------------------------------------
  // Consistency of the coin set and the record store
  // ---------------------------------------------------------------------

  /** The live coins are exactly the coins of the unspent records. */
  ghost predicate Consistent(coins: seq<Coin>, records: seq<CoinRecord>)
  {
    && (forall x :: x in coins ==> exists r :: r in records && r.coin == x && !r.spent)
    && (forall r :: r in records && !r.spent ==> r.coin in coins)
  }

  /** Adding a coin with a fresh unspent record keeps the two consistent. */
  lemma ConsistentAdd(coins: seq<Coin>, records: seq<CoinRecord>, c: Coin, height: nat, timestamp: nat)
    requires Consistent(coins, records)
    ensures Consistent(coins + [c], records + [NewRecord(c, height, timestamp)])
  {
    var coins', records' := coins + [c], records + [NewRecord(c, height, timestamp)];
    forall x | x in coins' ensures exists r :: r in records' && r.coin == x && !r.spent {
      if x == c {
        assert records'[|records|] == NewRecord(c, height, timestamp);
      } else {
        assert x in coins;
        var r :| r in records && r.coin == x && !r.spent;
        assert r in records';
      }
    }
  }

  /** Spending `c` keeps the two consistent once the coins named like `c`
      leave the live set, provided names identify coins. */
  lemma ConsistentSpend(name: Coin -> Bytes32, coins: seq<Coin>, records: seq<CoinRecord>, c: Coin, height: nat, timestamp: nat)
    requires Injective(name)
    requires Consistent(coins, records)
    ensures Consistent(Without(name, coins, [name(c)]), SpendRecords(records, c, height, timestamp))
  {
    var coins' := Without(name, coins, [name(c)]);
    var records' := SpendRecords(records, c, height, timestamp);
    assert records' == Others(records, c) + SpendAll(Matching(records, c), height, timestamp);
    SpendAllOfCoin(Matching(records, c), c, height, timestamp);
    LiveCoinsKeepRecords(name, coins, records, c, height, timestamp);
    forall r | r in records' && !r.spent ensures r.coin in coins' {
      assert r in Others(records, c);
    }
  }

  /** Adding each coin of `cs` in turn, with its fresh unspent record, keeps
      the two consistent. */
  lemma {:induction false} ConsistentAddEach(coins: seq<Coin>, records: seq<CoinRecord>, cs: seq<Coin>, height: nat, timestamp: nat)
    requires Consistent(coins, records)
    ensures Consistent(coins + cs, records + NewRecords(cs, height, timestamp))
  {
    if cs == [] {
      assert coins + cs == coins;
      assert records + NewRecords(cs, height, timestamp) == records;
    } else {
      var init, last := cs[..|cs| - 1], cs[|cs| - 1];
      ConsistentAddEach(coins, records, init, height, timestamp);
      ConsistentAdd(coins + init, records + NewRecords(init, height, timestamp), last, height, timestamp);
      assert coins + init + [last] == coins + cs;
      assert records + NewRecords(init, height, timestamp) + [NewRecord(last, height, timestamp)]
          == records + NewRecords(cs, height, timestamp);
    }
  }

  /** Spending each coin of `cs` in turn keeps the two consistent once the
      coins named like any of them leave the live set. */
  lemma {:induction false} ConsistentSpendEach(name: Coin -> Bytes32, coins: seq<Coin>, records: seq<CoinRecord>, cs: seq<Coin>,
                                               height: nat, timestamp: nat)
    requires Injective(name)
    requires Consistent(coins, records)
    ensures Consistent(Without(name, coins, Names(name, cs)), SpendEach(records, cs, height, timestamp))
  {
    if cs == [] {
      WithoutNothing(name, coins);
    } else {
      var init, last := cs[..|cs| - 1], cs[|cs| - 1];
      ConsistentSpendEach(name, coins, records, init, height, timestamp);
      ConsistentSpend(name, Without(name, coins, Names(name, init)), SpendEach(records, init, height, timestamp),
                      last, height, timestamp);
      WithoutMore(name, coins, Names(name, init), name(last));
    }
  }

  lemma LiveCoinsKeepRecords(name: Coin -> Bytes32, coins: seq<Coin>, records: seq<CoinRecord>, c: Coin, height: nat, timestamp: nat)
    requires Consistent(coins, records)
    ensures forall x :: x in Without(name, coins, [name(c)]) ==>
              exists r :: r in SpendRecords(records, c, height, timestamp) && r.coin == x && !r.spent
  {
    var records' := SpendRecords(records, c, height, timestamp);
    forall x | x in Without(name, coins, [name(c)]) ensures exists r :: r in records' && r.coin == x && !r.spent {
      var r :| r in records && r.coin == x && !r.spent;
      assert r in Others(records, c);
      assert r in records';
    }
  }
}
