/**
 * Ranking of an entity's moves: moves whose power the catalog leaves null
 * are dropped, the rest are sorted by power, highest first, by a stable sort
 * (moves of equal power keep the order the catalog lists them in), and the
 * first three are kept.
 */
module MoveRanking {
  import opened Wrappers
  import opened Math

  /** A listed move with the power its own fetch resolved (None for a null power). */
  datatype MoveCandidate = MoveCandidate(name: string, power: Option<int>)

  /** A move that survived the filter, so its power is known. */
  datatype RankedMove = RankedMove(name: string, power: int)

  /** How many moves a summary keeps. */
  const TopMoveCount: nat := 3

  /** Drops the candidates whose power is null, keeping the others in listed order. */
  function KeepPowered(cands: seq<MoveCandidate>): (r: seq<RankedMove>)
    ensures |r| <= |cands|
    ensures forall m :: m in r ==> MoveCandidate(m.name, Some(m.power)) in cands
    ensures forall c :: c in cands && c.power.Some? ==> RankedMove(c.name, c.power.value) in r
  {
    if cands == [] then []
    else
      var rest := KeepPowered(cands[1..]);
      assert forall c :: c in cands ==> c == cands[0] || c in cands[1..];
      match cands[0].power
      case None => rest
      case Some(p) => [RankedMove(cands[0].name, p)] + rest
  }

  /** The number of candidates whose power is not null. */
  function PoweredCount(cands: seq<MoveCandidate>): nat {
    if cands == [] then 0
    else (if cands[0].power.Some? then 1 else 0) + PoweredCount(cands[1..])
  }

  /** The names of the ranked moves of power `v`, in the order they appear. */
  function TiedNames(ms: seq<RankedMove>, v: int): seq<string> {
    if ms == [] then []
    else (if ms[0].power == v then [ms[0].name] else []) + TiedNames(ms[1..], v)
  }

  /** The names of the listed moves whose power resolved to `v`, in listed order. */
  function ListedTiedNames(cands: seq<MoveCandidate>, v: int): seq<string> {
    if cands == [] then []
    else (if cands[0].power == Some(v) then [cands[0].name] else []) + ListedTiedNames(cands[1..], v)
  }

  /** Every power in `ms` is at least every power after it. */
  predicate NonIncreasing(ms: seq<RankedMove>) {
    forall i, j :: 0 <= i < j < |ms| ==> ms[i].power >= ms[j].power
  }

  /** Puts `x` in front of the first move whose power does not exceed its own. */
  function Insert(x: RankedMove, ms: seq<RankedMove>): seq<RankedMove> {
    if ms == [] || ms[0].power <= x.power then [x] + ms
    else [ms[0]] + Insert(x, ms[1..])
  }

  /** Stable sort by power, highest first (insertion sort from the back of the list). */
  function SortByPowerDesc(ms: seq<RankedMove>): seq<RankedMove> {
    if ms == [] then [] else Insert(ms[0], SortByPowerDesc(ms[1..]))
  }

  /** The moves a summary reports: filtered, sorted, truncated to three. */
  function TopMoves(cands: seq<MoveCandidate>): seq<RankedMove> {
    var sorted := SortByPowerDesc(KeepPowered(cands));
    sorted[..Min(TopMoveCount, |sorted|)]
  }

  /** The filter keeps one move per non-null power. */
  lemma {:induction false} KeepPoweredLength(cands: seq<MoveCandidate>)
    ensures |KeepPowered(cands)| == PoweredCount(cands)
  {
    if cands != [] {
      KeepPoweredLength(cands[1..]);
    }
  }

  /** The filter keeps, for each power, exactly the listed moves of that power in listed order. */
  lemma {:induction false} KeepPoweredTies(cands: seq<MoveCandidate>, v: int)
    ensures TiedNames(KeepPowered(cands), v) == ListedTiedNames(cands, v)
  {
    if cands != [] {
      KeepPoweredTies(cands[1..], v);
      var rest := KeepPowered(cands[1..]);
      match cands[0].power
      case None =>
      case Some(p) =>
        var x := RankedMove(cands[0].name, p);
        assert ([x] + rest)[1..] == rest;
    }
  }

  /** The names of power `v` in `[x] + ms`. */
  lemma TiedNamesCons(x: RankedMove, ms: seq<RankedMove>, v: int)
    ensures TiedNames([x] + ms, v) == (if x.power == v then [x.name] else []) + TiedNames(ms, v)
  {
    assert ([x] + ms)[1..] == ms;
  }

  /** Inserting adds exactly `x`. */
  lemma {:induction false} InsertPermutes(x: RankedMove, ms: seq<RankedMove>)
    ensures multiset(Insert(x, ms)) == multiset([x] + ms)
  {
    if !(ms == [] || ms[0].power <= x.power) {
      InsertPermutes(x, ms[1..]);
      assert ms == [ms[0]] + ms[1..];
    }
  }

  /** No move of `ms` has power above `b`. */
  predicate AllAtMost(ms: seq<RankedMove>, b: int) {
    forall i :: 0 <= i < |ms| ==> ms[i].power <= b
  }

  /** A bound on `x` and on every move of `ms` bounds every move of the insertion. */
  lemma {:induction false} InsertAtMost(x: RankedMove, ms: seq<RankedMove>, b: int)
    requires x.power <= b && AllAtMost(ms, b)
    ensures AllAtMost(Insert(x, ms), b)
  {
    if !(ms == [] || ms[0].power <= x.power) {
      InsertAtMost(x, ms[1..], b);
    }
  }

  /** A move followed by a sorted list of moves it bounds is sorted. */
  lemma ConsNonIncreasing(y: RankedMove, ms: seq<RankedMove>)
    requires NonIncreasing(ms) && AllAtMost(ms, y.power)
    ensures NonIncreasing([y] + ms)
  {
    var r := [y] + ms;
    forall i, j | 0 <= i < j < |r| ensures r[i].power >= r[j].power {
      assert r[j] == ms[j - 1];
      if i > 0 {
        assert r[i] == ms[i - 1];
      }
    }
  }

  /** Inserting into a sorted list keeps it sorted. */
  lemma {:induction false} InsertKeepsOrder(x: RankedMove, ms: seq<RankedMove>)
    requires NonIncreasing(ms)
    ensures NonIncreasing(Insert(x, ms))
  {
    if ms == [] || ms[0].power <= x.power {
      assert AllAtMost(ms, x.power) by {
        forall i | 0 <= i < |ms| ensures ms[i].power <= x.power {
          assert ms[0].power >= ms[i].power || i == 0;
        }
      }
      ConsNonIncreasing(x, ms);
    } else {
      var y, tail := ms[0], ms[1..];
      assert NonIncreasing(tail) by {
        forall i, j | 0 <= i < j < |tail| ensures tail[i].power >= tail[j].power {
          assert tail[i] == ms[i + 1] && tail[j] == ms[j + 1];
        }
      }
      assert AllAtMost(tail, y.power) by {
        forall i | 0 <= i < |tail| ensures tail[i].power <= y.power {
          assert tail[i] == ms[i + 1];
        }
      }
      InsertKeepsOrder(x, tail);
      InsertAtMost(x, tail, y.power);
      ConsNonIncreasing(y, Insert(x, tail));
    }
  }

  /** Inserting into a sorted list puts `x` before the moves of equal power. */
  lemma {:induction false} InsertKeepsTies(x: RankedMove, ms: seq<RankedMove>, v: int)
    requires NonIncreasing(ms)
    ensures TiedNames(Insert(x, ms), v) == TiedNames([x] + ms, v)
  {
    if !(ms == [] || ms[0].power <= x.power) {
      var y, tail := ms[0], ms[1..];
      assert NonIncreasing(tail) by {
        forall i, j | 0 <= i < j < |tail| ensures tail[i].power >= tail[j].power {
          assert tail[i] == ms[i + 1] && tail[j] == ms[j + 1];
        }
      }
      InsertKeepsTies(x, tail, v);
      TiedNamesCons(y, Insert(x, tail), v);
      TiedNamesCons(x, tail, v);
      TiedNamesCons(y, tail, v);
      TiedNamesCons(x, ms, v);
      assert ms == [y] + tail;
    }
  }

  /** The sort yields a non-increasing permutation of its input that keeps equal powers in input order. */
  lemma {:induction false} SortByPowerDescCorrect(ms: seq<RankedMove>)
    ensures NonIncreasing(SortByPowerDesc(ms))
    ensures multiset(SortByPowerDesc(ms)) == multiset(ms)
    ensures forall v :: TiedNames(SortByPowerDesc(ms), v) == TiedNames(ms, v)
  {
    if ms != [] {
      var rest := SortByPowerDesc(ms[1..]);
      SortByPowerDescCorrect(ms[1..]);
      InsertPermutes(ms[0], rest);
      InsertKeepsOrder(ms[0], rest);
      assert ms == [ms[0]] + ms[1..];
      forall v ensures TiedNames(SortByPowerDesc(ms), v) == TiedNames(ms, v) {
        InsertKeepsTies(ms[0], rest, v);
        TiedNamesCons(ms[0], rest, v);
        TiedNamesCons(ms[0], ms[1..], v);
      }
    }
  }

  /** The moves of power `v` in a prefix are a prefix of the moves of power `v` in the whole list. */
  lemma {:induction false} TiedNamesPrefix(ms: seq<RankedMove>, k: nat, v: int)
    requires k <= |ms|
    ensures TiedNames(ms[..k], v) <= TiedNames(ms, v)
  {
    if k > 0 {
      TiedNamesPrefix(ms[1..], k - 1, v);
      assert ms[..k][1..] == ms[1..][..k - 1];
    }
  }

  /** In a sorted list, nothing left out of a prefix outranks anything in it. */
  lemma SortedPrefixDominates(s: seq<RankedMove>, k: nat)
    requires NonIncreasing(s) && k <= |s|
    ensures forall m, t :: m in multiset(s) - multiset(s[..k]) && t in s[..k] ==> m.power <= t.power
  {
    assert s == s[..k] + s[k..];
    assert multiset(s) - multiset(s[..k]) == multiset(s[k..]);
    forall m, t | m in multiset(s) - multiset(s[..k]) && t in s[..k] ensures m.power <= t.power {
      assert m in s[k..];
      var j :| 0 <= j < |s[k..]| && s[k..][j] == m;
      var i :| 0 <= i < k && s[..k][i] == t;
      assert s[k + j] == m && s[i] == t;
    }
  }

  /** The top moves are the first `Min(3, n)` moves of the sorted, filtered list. */
  lemma {:induction false} TopMovesIsPrefix(cands: seq<MoveCandidate>)
    ensures |SortByPowerDesc(KeepPowered(cands))| == PoweredCount(cands)
    ensures TopMoves(cands) == SortByPowerDesc(KeepPowered(cands))[..Min(TopMoveCount, PoweredCount(cands))]
  {
    var kept := KeepPowered(cands);
    KeepPoweredLength(cands);
    SortByPowerDescCorrect(kept);
    assert |multiset(SortByPowerDesc(kept))| == |multiset(kept)|;
  }

  /** At most three moves are reported, and fewer only when fewer than three have a power. */
  lemma {:induction false} TopMovesLength(cands: seq<MoveCandidate>)
    ensures |TopMoves(cands)| == Min(TopMoveCount, PoweredCount(cands))
  {
    TopMovesIsPrefix(cands);
  }

  /** Every reported move is a listed move whose power resolved, reported with that power. */
  lemma {:induction false} TopMovesFromListing(cands: seq<MoveCandidate>)
    ensures forall m :: m in TopMoves(cands) ==> MoveCandidate(m.name, Some(m.power)) in cands
  {
    var kept := KeepPowered(cands);
    var sorted := SortByPowerDesc(kept);
    TopMovesIsPrefix(cands);
    SortByPowerDescCorrect(kept);
    forall m | m in TopMoves(cands) ensures MoveCandidate(m.name, Some(m.power)) in cands {
      assert m in sorted;
      assert m in multiset(kept);
    }
  }

  /** The reported moves are ordered by power, highest first. */
  lemma {:induction false} TopMovesOrdered(cands: seq<MoveCandidate>)
    ensures NonIncreasing(TopMoves(cands))
  {
    TopMovesIsPrefix(cands);
    SortByPowerDescCorrect(KeepPowered(cands));
  }

  /** Among moves of one power, the reported ones are the first ones listed, in listed order. */
  lemma {:induction false} TopMovesStable(cands: seq<MoveCandidate>, v: int)
    ensures TiedNames(TopMoves(cands), v) <= ListedTiedNames(cands, v)
  {
    var kept := KeepPowered(cands);
    var sorted := SortByPowerDesc(kept);
    TopMovesIsPrefix(cands);
    SortByPowerDescCorrect(kept);
    TiedNamesPrefix(sorted, Min(TopMoveCount, PoweredCount(cands)), v);
    KeepPoweredTies(cands, v);
  }

  /** No move with a power that is left out outranks a reported move. */
  lemma {:induction false} TopMovesDominate(cands: seq<MoveCandidate>)
    ensures forall m, t :: m in multiset(KeepPowered(cands)) - multiset(TopMoves(cands)) && t in TopMoves(cands)
              ==> m.power <= t.power
  {
    var kept := KeepPowered(cands);
    var sorted := SortByPowerDesc(kept);
    TopMovesIsPrefix(cands);
    SortByPowerDescCorrect(kept);
    SortedPrefixDominates(sorted, Min(TopMoveCount, PoweredCount(cands)));
  }

  /** With at most three powered moves, every one of them is reported. */
  lemma {:induction false} TopMovesKeepAllFew(cands: seq<MoveCandidate>)
    requires PoweredCount(cands) <= TopMoveCount
    ensures multiset(TopMoves(cands)) == multiset(KeepPowered(cands))
  {
    var kept := KeepPowered(cands);
    TopMovesIsPrefix(cands);
    SortByPowerDescCorrect(kept);
    assert TopMoves(cands) == SortByPowerDesc(kept);
  }

  /**
   * Four listed moves with powers 40, null, 90, 90: the two moves of power 90
   * come first, in listed order, then the move of power 40.
   */
  lemma EqualPowersKeepListedOrder()
    ensures TopMoves([MoveCandidate("a", Some(40)), MoveCandidate("b", None),
                      MoveCandidate("c", Some(90)), MoveCandidate("d", Some(90))])
         == [RankedMove("c", 90), RankedMove("d", 90), RankedMove("a", 40)]
  {
  }
}
