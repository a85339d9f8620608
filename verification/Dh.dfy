/** choose_dh: two passes over the moduli file, the first to find the best size, the second to fetch a random group of it. */
module Dh {
  import opened Basics

  /** A line that parse_prime accepts; the group is one bit larger than the size listed, so at least 2. */
  datatype Entry = Entry(size: nat, id: nat)

  type Line = Option<Entry>

  datatype Outcome = NoSuitable | Fallback | Chosen(e: Entry)

  predicate Parsed(lines: seq<Line>) {
    forall i :: 0 <= i < |lines| && lines[i].Some? ==> lines[i].value.size >= 2
  }

  predicate InRange(l: Line, min: int, max: int) { l.Some? && min <= l.value.size <= max }

  /** The entries of acceptable size, in file order. */
  function Candidates(lines: seq<Line>, min: int, max: int): seq<Entry> {
    if lines == [] then []
    else
      var n := |lines| - 1;
      Candidates(lines[..n], min, max) + if InRange(lines[n], min, max) then [lines[n].value] else []
  }

  function OfSize(es: seq<Entry>, size: int): seq<Entry> {
    if es == [] then []
    else
      var n := |es| - 1;
      OfSize(es[..n], size) + if es[n].size == size then [es[n]] else []
  }

  function Better(best: int, size: int, want: int): int {
    if (size > want && size < best) || (size > best && best < want) then size else best
  }

  function Best(es: seq<Entry>, want: int): int {
    if es == [] then 0 else Better(Best(es[..|es| - 1], want), es[|es| - 1].size, want)
  }

  /** The candidates after one more line. */
  function WithLine(es: seq<Entry>, line: Line, min: int, max: int): seq<Entry> {
    if InRange(line, min, max) then es + [line.value] else es
  }

  lemma CandidatesStep(lines: seq<Line>, n: nat, min: int, max: int)
    requires n < |lines|
    ensures Candidates(lines[..n + 1], min, max) == WithLine(Candidates(lines[..n], min, max), lines[n], min, max)
  {
    assert lines[..n + 1][..n] == lines[..n];
  }

  lemma EntryStep(es: seq<Entry>, e: Entry, size: int, want: int)
    ensures OfSize(es + [e], size) == if e.size == size then OfSize(es, size) + [e] else OfSize(es, size)
    ensures Best(es + [e], want) == Better(Best(es, want), e.size, want)
  {
    assert (es + [e])[..|es|] == es;
  }

  // ---- which size is chosen

  /** es[i] is the first entry that is large enough. */
  predicate FirstLarge(es: seq<Entry>, want: int, i: nat) {
    i < |es| && es[i].size >= want && forall j :: 0 <= j < i ==> es[j].size < want
  }

  /** No entry is large enough: the largest is best. */
  lemma {:induction false} BestOfSmall(es: seq<Entry>, want: int)
    requires forall j :: 0 <= j < |es| ==> 0 < es[j].size < want
    ensures forall j :: 0 <= j < |es| ==> es[j].size <= Best(es, want)
    ensures es != [] ==> exists j :: 0 <= j < |es| && es[j].size == Best(es, want)
    ensures Best(es, want) < want || es == []
  {
    if es != [] {
      var n := |es| - 1;
      var init := es[..n];
      BestOfSmall(init, want);
      if Best(es, want) == es[n].size {
      } else {
        assert init != [];
        var j :| 0 <= j < |init| && init[j].size == Best(init, want);
        assert es[j].size == Best(es, want);
      }
    }
  }

  /** The first large enough entry has exactly the size wanted: that size is best. */
  lemma {:induction false} BestIsWanted(es: seq<Entry>, want: int, i: nat)
    requires want > 0 && FirstLarge(es, want, i) && es[i].size == want
    requires forall j :: 0 <= j < |es| ==> es[j].size > 0
    ensures Best(es, want) == want
  {
    var n := |es| - 1;
    var init := es[..n];
    if i == n {
      BestOfSmall(init, want);
    } else {
      BestIsWanted(init, want, i);
    }
  }

  /** The first large enough entry is larger than wanted: the smallest such entry is best, whatever else comes later. */
  lemma {:induction false} BestIsSmallestAbove(es: seq<Entry>, want: int, i: nat)
    requires want > 0 && FirstLarge(es, want, i) && es[i].size > want
    requires forall j :: 0 <= j < |es| ==> es[j].size > 0
    ensures Best(es, want) > want && forall j :: 0 <= j < |es| && es[j].size > want ==> Best(es, want) <= es[j].size
    ensures exists j :: 0 <= j < |es| && es[j].size == Best(es, want)
  {
    var n := |es| - 1;
    var init := es[..n];
    if i == n {
      BestOfSmall(init, want);
      assert Best(es, want) == es[n].size;
    } else {
      BestIsSmallestAbove(init, want, i);
      if Best(es, want) != es[n].size {
        var j :| 0 <= j < |init| && init[j].size == Best(init, want);
        assert es[j].size == Best(es, want);
      }
    }
  }

  lemma {:induction false} FirstLargeExists(es: seq<Entry>, want: int) returns (i: nat)
    requires exists j :: 0 <= j < |es| && es[j].size >= want
    ensures FirstLarge(es, want, i)
  {
    var n := |es| - 1;
    if exists j :: 0 <= j < n && es[j].size >= want {
      var k :| 0 <= k < n && es[k].size >= want;
      assert es[..n][k].size >= want;
      i := FirstLargeExists(es[..n], want);
    } else {
      i := n;
    }
  }

  /** The size wanted is chosen exactly when it is the first large enough size in the file. */
  lemma WantedIff(es: seq<Entry>, want: int)
    requires want > 0 && forall j :: 0 <= j < |es| ==> es[j].size > 0
    ensures Best(es, want) == want <==> exists i: nat :: FirstLarge(es, want, i) && es[i].size == want
  {
    if exists j :: 0 <= j < |es| && es[j].size >= want {
      var i := FirstLargeExists(es, want);
      if es[i].size == want {
        BestIsWanted(es, want, i);
      } else {
        BestIsSmallestAbove(es, want, i);
        assert forall k: nat :: FirstLarge(es, want, k) ==> k == i;
      }
    } else {
      BestOfSmall(es, want);
    }
  }

  /** A file in which the size wanted comes after a larger one: it is passed over. */
  lemma WantedPassedOver()
    ensures Best([Entry(3072, 0), Entry(2048, 1)], 2048) == 3072
  {
    var es := [Entry(3072, 0), Entry(2048, 1)];
    assert es[..1] == [Entry(3072, 0)] && [Entry(3072, 0)][..0] == [];
    assert Best([Entry(3072, 0)], 2048) == 3072;
  }

  lemma BestIsThere(es: seq<Entry>, want: int)
    requires want > 0 && es != [] && forall j :: 0 <= j < |es| ==> es[j].size > 0
    ensures exists j :: 0 <= j < |es| && es[j].size == Best(es, want)
  {
    if exists j :: 0 <= j < |es| && es[j].size >= want {
      var i := FirstLargeExists(es, want);
      if es[i].size == want {
        BestIsWanted(es, want, i);
      } else {
        BestIsSmallestAbove(es, want, i);
      }
    } else {
      BestOfSmall(es, want);
    }
  }

  lemma {:induction false} OfSizeIff(es: seq<Entry>, size: int)
    ensures OfSize(es, size) != [] <==> exists j :: 0 <= j < |es| && es[j].size == size
  {
    if es != [] {
      var n := |es| - 1;
      OfSizeIff(es[..n], size);
      if j :| 0 <= j < |es| && es[j].size == size && j < n {
        assert es[..n][j].size == size;
      }
      if j :| 0 <= j < n && es[..n][j].size == size {
        assert es[j].size == size;
      }
    }
  }

  lemma {:induction false} NothingWanted(es: seq<Entry>, want: int)
    requires want <= 0 && forall j :: 0 <= j < |es| ==> es[j].size > 0
    ensures Best(es, want) == 0
  {
    if es != [] {
      NothingWanted(es[..|es| - 1], want);
    }
  }

  lemma {:induction false} CandidatesInRange(lines: seq<Line>, min: int, max: int)
    requires Parsed(lines)
    ensures forall e :: e in Candidates(lines, min, max) ==> e.size > 0
    ensures Candidates(lines, min, max) == [] <==> forall i :: 0 <= i < |lines| ==> !InRange(lines[i], min, max)
  {
    if lines != [] {
      var n := |lines| - 1;
      CandidatesInRange(lines[..n], min, max);
      assert forall i :: 0 <= i < n ==> lines[..n][i] == lines[i];
    }
  }

  /** There is nothing to choose from exactly when no line is in range, or nothing is wanted. */
  lemma PoolEmptyIff(lines: seq<Line>, min: int, want: int, max: int)
    requires Parsed(lines)
    ensures var es := Candidates(lines, min, max);
      OfSize(es, Best(es, want)) == [] <==> want <= 0 || forall i :: 0 <= i < |lines| ==> !InRange(lines[i], min, max)
  {
    var es := Candidates(lines, min, max);
    CandidatesInRange(lines, min, max);
    OfSizeIff(es, Best(es, want));
    if want <= 0 {
      NothingWanted(es, want);
    } else if es != [] {
      BestIsThere(es, want);
    }
  }

  /** A size that becomes best was not seen before. */
  lemma {:induction false} NewBestIsNew(es: seq<Entry>, want: int, size: int)
    requires forall j :: 0 <= j < |es| ==> es[j].size > 0
    requires Better(Best(es, want), size, want) != Best(es, want)
    ensures OfSize(es, size) == []
  {
    NotSeen(es, want, size);
  }

  lemma {:induction false} NotSeen(es: seq<Entry>, want: int, size: int)
    requires forall j :: 0 <= j < |es| ==> es[j].size > 0
    requires (size > want && size < Best(es, want)) || (size > Best(es, want) && Best(es, want) < want)
    ensures OfSize(es, size) == []
  {
    if es != [] {
      NotSeen(es[..|es| - 1], want, size);
    }
  }

  // ---- the two passes

  /** The best size of the entries read, and how many have it. */
  ghost predicate Counted(es: seq<Entry>, want: int, best: int, count: nat) {
    best == Best(es, want) && count == |OfSize(es, best)| && forall j :: 0 <= j < |es| ==> es[j].size > 0
  }

  method CountLine(line: Line, min: int, want: int, max: int, best: int, count: nat, ghost es: seq<Entry>)
    returns (best': int, count': nat)
    requires Counted(es, want, best, count) && (line.Some? ==> line.value.size > 0)
    ensures Counted(WithLine(es, line, min, max), want, best', count')
  {
    best', count' := best, count;
    if InRange(line, min, max) {
      var e := line.value;
      EntryStep(es, e, Better(best, e.size, want), want);
      if (e.size > want && e.size < best) || (e.size > best && best < want) {
        NewBestIsNew(es, want, e.size);
        best', count' := e.size, 0;
      }
      if e.size == best' {
        count' := count' + 1;
      }
    }
  }

  /** First pass: the best size and how many entries have it. */
  method FindBest(lines: seq<Line>, min: int, want: int, max: int) returns (best: int, count: nat)
    requires Parsed(lines)
    ensures var es := Candidates(lines, min, max); best == Best(es, want) && count == |OfSize(es, best)|
  {
    best, count := 0, 0;
    ghost var es := [];
    for n := 0 to |lines|
      invariant es == Candidates(lines[..n], min, max) && Counted(es, want, best, count)
    {
      best, count := CountLine(lines[n], min, want, max, best, count, es);
      CandidatesStep(lines, n, min, max);
      es := WithLine(es, lines[n], min, max);
    }
    assert lines[..|lines|] == lines;
  }

  /** Of the entries read, `which` has been found or is still to come. */
  ghost predicate Fetched(es: seq<Entry>, which: nat, found: Option<Entry>, count: nat) {
    if which < |es| then found == Some(es[which]) && count == which + 1 else found == None && count == |es|
  }

  method FetchLine(line: Line, min: int, best: int, max: int, which: nat, count: nat, ghost es: seq<Entry>)
    returns (found: Option<Entry>, count': nat)
    requires Fetched(OfSize(es, best), which, None, count)
    ensures Fetched(OfSize(WithLine(es, line, min, max), best), which, found, count')
  {
    found, count' := None, count;
    if InRange(line, min, max) {
      EntryStep(es, line.value, best, 0);
      if line.value.size == best {
        count' := count + 1;
        if count == which {
          found := line;
        }
      }
    }
  }

  /** Second pass: the entry with number `which` among those of the best size, and how many were counted. */
  method Fetch(lines: seq<Line>, min: int, best: int, max: int, which: nat) returns (found: Option<Entry>, count: nat)
    requires Parsed(lines)
    ensures Fetched(OfSize(Candidates(lines, min, max), best), which, found, count)
  {
    found, count := None, 0;
    var n := 0;
    ghost var es := [];
    while n < |lines| && found == None
      invariant 0 <= n <= |lines| && es == Candidates(lines[..n], min, max)
      invariant Fetched(OfSize(es, best), which, found, count)
      decreases |lines| - n
    {
      found, count := FetchLine(lines[n], min, best, max, which, count, es);
      CandidatesStep(lines, n, min, max);
      es := WithLine(es, lines[n], min, max);
      n := n + 1;
    }
    OfSizePrefix(lines, n, min, max, best);
    assert lines[..|lines|] == lines;
  }

  lemma {:induction false} OfSizePrefix(lines: seq<Line>, n: nat, min: int, max: int, size: int)
    requires n <= |lines|
    ensures OfSize(Candidates(lines[..n], min, max), size) <= OfSize(Candidates(lines, min, max), size)
  {
    if n == |lines| {
      assert lines[..n] == lines;
    } else {
      var m := |lines| - 1;
      OfSizePrefix(lines[..m], n, min, max, size);
      assert lines[..m][..n] == lines[..n];
      assert lines[..m + 1] == lines;
      CandidatesStep(lines, m, min, max);
      if InRange(lines[m], min, max) {
        EntryStep(Candidates(lines[..m], min, max), lines[m].value, size, 0);
      }
    }
  }

  /**
   choose_dh: `lines` is None when no usable file can be opened (on Windows neither of two paths, or one whose
   permissions are too open), `again` what the second pass reads and `random` the number that arc4random_uniform
   is asked to reduce.
   */
  method ChooseDh(lines: Option<seq<Line>>, again: seq<Line>, min: int, want: int, max: int, random: nat) returns (r: Outcome)
    requires lines.Some? ==> Parsed(lines.value)
    requires Parsed(again)
    ensures lines.None? ==> r == Fallback
    ensures lines.Some? ==>
      var es := Candidates(lines.value, min, max);
      var pool := OfSize(es, Best(es, want));
      var now := OfSize(Candidates(again, min, max), Best(es, want));
      pool != [] ==> r == if random % |pool| < |now| then Chosen(now[random % |pool|]) else Fallback
    ensures r == NoSuitable <==>
      lines.Some? && (want <= 0 || forall i :: 0 <= i < |lines.value| ==> !InRange(lines.value[i], min, max))
  {
    if lines.None? {
      return Fallback;
    }
    PoolEmptyIff(lines.value, min, want, max);
    var best, count := FindBest(lines.value, min, want, max);
    if count == 0 {
      return NoSuitable;
    }
    var which := random % count;
    var found, seen := Fetch(again, min, best, max, which);
    if seen != which + 1 {
      return Fallback;
    }
    return Chosen(found.value);
  }

  /** The candidates are the entries of the file whose size is within both bounds. */
  lemma {:induction false} CandidatesAre(lines: seq<Line>, min: int, max: int, e: Entry)
    ensures e in Candidates(lines, min, max) <==> Some(e) in lines && e.size >= min && e.size <= max
  {
    if lines != [] {
      var n := |lines| - 1;
      CandidatesAre(lines[..n], min, max, e);
      assert lines == lines[..n] + [lines[n]];
    }
  }
}
