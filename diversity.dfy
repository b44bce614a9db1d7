/**
 * Diversity filtering of ranked passages (DocumentService): normalisation
 * of a passage's text, the word-set Jaccard similarity, and the greedy
 * selection that skips passages too similar to those already chosen.
 */
module Diversity {
  import opened Dto
  import opened JavaStrings

  // ---------------------------------------------------------------------
  // normalizeContent
  // ---------------------------------------------------------------------

  /** The characters [a-z0-9 ] that normalisation keeps. */
  predicate NormalChar(c: char) { IsLower(c) || IsDigit(c) || c == ' ' }

  /** replaceAll("[^a-z0-9 ]", ""). */
  function KeepNormalChars(s: string): (r: string)
    ensures |r| <= |s|
    ensures forall k :: 0 <= k < |r| ==> NormalChar(r[k])
  {
    if |s| == 0 then ""
    else if NormalChar(s[0]) then [s[0]] + KeepNormalChars(s[1..])
    else KeepNormalChars(s[1..])
  }

  /** Characters that are already normal survive the filter unchanged. */
  lemma {:induction false} KeepNormalIdentity(s: string)
    requires forall k :: 0 <= k < |s| ==> NormalChar(s[k])
    ensures KeepNormalChars(s) == s
  {
    if |s| > 0 {
      KeepNormalIdentity(s[1..]);
    }
  }

  /**
   * normalizeContent: lower case, white-space runs to one space, only
   * [a-z0-9 ], trimmed. The result holds only [a-z0-9 ] and neither starts
   * nor ends with a space.
   */
  function Normalize(content: string): (r: string)
    ensures forall k :: 0 <= k < |r| ==> NormalChar(r[k])
    ensures r == [] || (r[0] != ' ' && Last(r) != ' ')
  {
    var s := KeepNormalChars(CollapseSpaces(ToLower(content)));
    TrimNormal(s);
    Trim(s)
  }

  /** Trimming a text of [a-z0-9 ] leaves a text of [a-z0-9 ]. */
  lemma TrimNormal(s: string)
    requires forall k :: 0 <= k < |s| ==> NormalChar(s[k])
    ensures forall k :: 0 <= k < |Trim(s)| ==> NormalChar(Trim(s)[k])
  {
    var a, b := TrimSlice(s);
    forall k | 0 <= k < |Trim(s)| ensures NormalChar(Trim(s)[k]) {
      assert Trim(s)[k] == s[a + k];
    }
  }

  /** A text made only of lower-case ASCII letters and digits is its own normalisation. */
  lemma NormalizeFixed(content: string)
    requires forall k :: 0 <= k < |content| ==> IsLower(content[k]) || IsDigit(content[k])
    ensures Normalize(content) == content
  {
    assert ToLower(content) == content;
    CollapseSpacesIdentity(content);
    KeepNormalIdentity(content);
  }

  // ---------------------------------------------------------------------
  // calculateJaccardSimilarity
  // ---------------------------------------------------------------------

  /** new HashSet<>(Arrays.asList(text.split("\\s+"))). */
  function WordSet(text: string): set<string>
  {
    set w | w in Split(text, Runs(Space, 1))
  }

  /**
   * calculateJaccardSimilarity: |intersection| / |union|, 0 for an empty union.
   * It lies in [0, 1], is 1 exactly for two equal non-empty word sets and 0
   * for word sets with no word in common.
   */
  function Jaccard(a: string, b: string): (r: real)
    ensures 0.0 <= r <= 1.0
    ensures r == 1.0 <==> WordSet(a) == WordSet(b) && WordSet(a) != {}
    ensures WordSet(a) * WordSet(b) == {} ==> r == 0.0
  {
    var i, u := |WordSet(a) * WordSet(b)|, |WordSet(a) + WordSet(b)|;
    WordCounts(WordSet(a), WordSet(b));
    if u == 0 then 0.0
    else
      RatioUnit(i, u);
      RatioOne(i, u);
      i as real / u as real
  }

  /** The intersection is no larger than the union, and as large exactly when the two sets are equal. */
  lemma WordCounts(sa: set<string>, sb: set<string>)
    ensures |sa * sb| <= |sa + sb|
    ensures |sa * sb| == |sa + sb| <==> sa == sb
    ensures |sa + sb| == 0 <==> sa == {} && sb == {}
  {
    SubsetCard(sa * sb, sa + sb);
    if sa != sb {
      var x :| x in (sa - sb) + (sb - sa);
      SubsetCard(sa * sb, (sa + sb) - {x});
    } else {
      assert sa * sb == sa + sb;
    }
    if sa + sb == {} {
      assert sa <= sa + sb && sb <= sa + sb;
    }
  }

  /** A ratio of naturals is 1 exactly when they are equal. */
  lemma RatioOne(i: nat, u: nat)
    requires u > 0
    ensures i as real / u as real == 1.0 <==> i == u
  {
    var q, ur := i as real / u as real, u as real;
    assert q * ur == i as real;
  }

  /** The rejection test of selectDiverseChunks, Jaccard > 0.7, decided on the two counts. */
  function TooSimilar(a: string, b: string): bool
  {
    10 * |WordSet(a) * WordSet(b)| > 7 * |WordSet(a) + WordSet(b)|
  }

  /** The ratio test i / u > 0.7, decided on naturals. */
  lemma RatioAbove(i: nat, u: nat)
    requires u > 0
    ensures (i as real / u as real > 0.7) <==> 10 * i > 7 * u
  {
    var q, ur := i as real / u as real, u as real;
    assert q * ur == i as real;
    ScaleCompare(q, 0.7, ur);
  }

  /** Multiplying by a positive factor keeps a strict comparison. */
  lemma ScaleCompare(x: real, y: real, c: real)
    requires c > 0.0
    ensures x > y <==> x * c > y * c
  {
    assert x * c - y * c == (x - y) * c;
  }

  /** A ratio of a count to a larger count lies in [0, 1]. */
  lemma RatioUnit(i: nat, u: nat)
    requires 0 < u && i <= u
    ensures 0.0 <= i as real / u as real <= 1.0
  {
    var q, ur := i as real / u as real, u as real;
    assert q * ur == i as real;
    ScaleCompare(q, 1.0, ur);
  }

  /** Jaccard similarity is symmetric, lies in [0, 1], and the integer test agrees with the ratio. */
  lemma JaccardFacts(a: string, b: string)
    ensures Jaccard(a, b) == Jaccard(b, a)
    ensures 0.0 <= Jaccard(a, b) <= 1.0
    ensures TooSimilar(a, b) <==> Jaccard(a, b) > 0.7
    ensures TooSimilar(a, b) == TooSimilar(b, a)
  {
    var sa, sb := WordSet(a), WordSet(b);
    assert sa * sb == sb * sa && sa + sb == sb + sa;
    SubsetCard(sa * sb, sa + sb);
    var i, u := |sa * sb|, |sa + sb|;
    if u > 0 {
      RatioAbove(i, u);
      RatioUnit(i, u);
    }
  }

  /** A text that neither starts nor ends with a space has at least one word. */
  lemma WordSetNonEmpty(t: string)
    requires t == [] || (t[0] != ' ' && Last(t) != ' ')
    requires forall k :: 0 <= k < |t| ==> NormalChar(t[k])
    ensures |WordSet(t)| > 0
  {
    SplitRunsNonEmpty(Space, t);
    var w := Split(t, Runs(Space, 1))[0];
    assert w in WordSet(t);
  }

  /** A normalised text has at least one word, so the empty-union guard never fires on one. */
  lemma NormalWordSet(content: string)
    ensures |WordSet(Normalize(content))| > 0
  {
    WordSetNonEmpty(Normalize(content));
  }

  /** A text with at least one word is as similar as can be to itself. */
  lemma SelfSimilar(t: string)
    requires |WordSet(t)| > 0
    ensures TooSimilar(t, t) && Jaccard(t, t) == 1.0
  {
    var s := WordSet(t);
    var n := |s|;
    assert s * s == s && s + s == s;
    assert |s * s| == n && |s + s| == n;
    assert n as real / n as real == 1.0;
  }

  /** Every normalised text is too similar to itself. */
  lemma SelfTooSimilar(content: string)
    ensures TooSimilar(Normalize(content), Normalize(content))
    ensures Jaccard(Normalize(content), Normalize(content)) == 1.0
  {
    NormalWordSet(content);
    SelfSimilar(Normalize(content));
  }

  // ---------------------------------------------------------------------
  // selectDiverseChunks
  // ---------------------------------------------------------------------

  /** The normalised text of every ranked entry. */
  function Norms(normalize: string -> string, ranked: seq<RankedChunk>): (ns: seq<string>)
    ensures |ns| == |ranked|
  {
    if |ranked| == 0 then [] else [normalize(ranked[0].chunk.text)] + Norms(normalize, ranked[1..])
  }

  lemma {:induction false} NormsAt(normalize: string -> string, ranked: seq<RankedChunk>, k: nat)
    requires k < |ranked|
    ensures Norms(normalize, ranked)[k] == normalize(ranked[k].chunk.text)
  {
    if k > 0 {
      NormsAt(normalize, ranked[1..], k - 1);
    }
  }

  /** Every position is below n. */
  predicate InRange(picks: seq<nat>, n: nat) {
    forall k :: 0 <= k < |picks| ==> picks[k] < n
  }

  /** The texts at the picked positions (seenContent). */
  function Seen(norms: seq<string>, picks: seq<nat>): set<string>
    decreases |picks|
  {
    if |picks| == 0 then {}
    else
      var last := picks[|picks| - 1];
      Seen(norms, picks[..|picks| - 1]) + (if last < |norms| then {norms[last]} else {})
  }

  /** The seen texts are exactly the texts at the picked positions. */
  lemma {:induction false} SeenMembers(norms: seq<string>, picks: seq<nat>, e: string)
    ensures e in Seen(norms, picks) <==> exists k :: 0 <= k < |picks| && picks[k] < |norms| && norms[picks[k]] == e
    decreases |picks|
  {
    if |picks| > 0 {
      var init := picks[..|picks| - 1];
      SeenMembers(norms, init, e);
      if e in Seen(norms, init) {
        var k :| 0 <= k < |init| && init[k] < |norms| && norms[init[k]] == e;
        assert picks[k] == init[k];
      }
      if exists k :: 0 <= k < |picks| && picks[k] < |norms| && norms[picks[k]] == e {
        var k :| 0 <= k < |picks| && picks[k] < |norms| && norms[picks[k]] == e;
        if k < |init| {
          assert init[k] == picks[k];
        }
      }
    }
  }

  /** No seen text is too similar to the candidate (isDiverse). */
  predicate Diverse(sim: (string, string) -> bool, candidate: string, seen: set<string>) {
    forall e {:trigger sim(candidate, e)} :: e in seen ==> !sim(candidate, e)
  }

  /**
   * The positions the greedy selection has picked among the first i texts:
   * the first, then each text, while fewer than maxResults are picked, that
   * is not similar to any picked one. selectDiverseChunks runs it on the
   * normalised texts with TooSimilar.
   */
  function Picks(norms: seq<string>, sim: (string, string) -> bool, maxResults: int, i: nat): (p: seq<nat>)
    requires 1 <= i <= |norms|
    ensures |p| > 0 && p[0] == 0
    decreases i
  {
    if i == 1 then [0]
    else
      var p := Picks(norms, sim, maxResults, i - 1);
      if |p| < maxResults && Diverse(sim, norms[i - 1], Seen(norms, p)) then p + [i - 1] else p
  }

  /** Only positions already looked at are picked. */
  lemma {:induction false} PicksInRange(norms: seq<string>, sim: (string, string) -> bool, maxResults: int, i: nat)
    requires 1 <= i <= |norms|
    ensures InRange(Picks(norms, sim, maxResults, i), i)
    decreases i
  {
    if i > 1 {
      PicksInRange(norms, sim, maxResults, i - 1);
    }
  }

  function ChunksAt(ranked: seq<RankedChunk>, picks: seq<nat>): (r: seq<TextChunk>)
    requires InRange(picks, |ranked|)
    ensures |r| == |picks|
    ensures forall k :: 0 <= k < |r| ==> r[k] == ranked[picks[k]].chunk
  {
    seq(|picks|, k requires 0 <= k < |picks| => ranked[picks[k]].chunk)
  }

  function AllChunks(ranked: seq<RankedChunk>): (r: seq<TextChunk>)
    ensures |r| == |ranked|
    ensures forall k :: 0 <= k < |r| ==> r[k] == ranked[k].chunk
  {
    seq(|ranked|, k requires 0 <= k < |ranked| => ranked[k].chunk)
  }

  /** The greedy picks of selectDiverseChunks. */
  function DiversePicks(ranked: seq<RankedChunk>, maxResults: int): (p: seq<nat>)
    requires |ranked| > 0
    ensures InRange(p, |ranked|)
  {
    PicksInRange(Norms(Normalize, ranked), TooSimilar, maxResults, |ranked|);
    Picks(Norms(Normalize, ranked), TooSimilar, maxResults, |ranked|)
  }

  /**
   * The answer of selectDiverseChunks: everything when there are at most
   * maxResults entries; otherwise the greedy picks (rankedChunks.get(0)
   * throws when there is no entry at all, which needs maxResults < 0).
   */
  function Selection(ranked: seq<RankedChunk>, maxResults: int): (r: Result<seq<TextChunk>>)
    ensures r.Err? <==> ranked == [] && maxResults < 0
    ensures r.Ok? && ranked != [] ==> r.value != [] && r.value[0] == ranked[0].chunk
    ensures r.Ok? && maxResults >= 1 ==> |r.value| <= maxResults
  {
    if |ranked| <= maxResults then Ok(AllChunks(ranked))
    else if |ranked| == 0 then Err(IndexOutOfBounds(0))
    else
      var p := DiversePicks(ranked, maxResults);
      if maxResults >= 1 then
        PicksBounded(Norms(Normalize, ranked), TooSimilar, maxResults, |ranked|);
        Ok(ChunksAt(ranked, p))
      else Ok(ChunksAt(ranked, p))
  }

  /**
   * isDiverse: the loop over seenContent, diverse unless some seen text is
   * similar to the candidate. selectDiverseChunks runs it with TooSimilar.
   */
  method IsDiverse(sim: (string, string) -> bool, candidate: string, seen: set<string>) returns (d: bool)
    ensures d == Diverse(sim, candidate, seen)
  {
    d := true;
    var rest := seen;
    while rest != {}
      invariant rest <= seen
      invariant forall e :: e in seen - rest ==> !sim(candidate, e)
      decreases |rest|
    {
      var e :| e in rest;
      if sim(candidate, e) {
        d := false;
        break;
      }
      rest := rest - {e};
    }
  }

  /** selectDiverseChunks. */
  method SelectDiverseChunks(ranked: seq<RankedChunk>, maxResults: int) returns (r: Result<seq<TextChunk>>)
    ensures r == Selection(ranked, maxResults)
  {
    if |ranked| <= maxResults {
      return Ok(AllChunks(ranked));
    }
    if |ranked| == 0 {
      return Err(IndexOutOfBounds(0));
    }
    var selected := GreedySelect(ranked, maxResults, Normalize, TooSimilar);
    var chunks := seq(|selected|, k requires 0 <= k < |selected| => selected[k].chunk);
    assert chunks == ChunksAt(ranked, DiversePicks(ranked, maxResults));
    r := Ok(chunks);
  }

  /**
   * The loop of selectDiverseChunks, over its normalisation (normalizeContent)
   * and its similarity test (Jaccard above 0.7): the entries at the greedy
   * picks, in order.
   */
  method GreedySelect(ranked: seq<RankedChunk>, maxResults: int, normalize: string -> string, sim: (string, string) -> bool)
    returns (selected: seq<RankedChunk>)
    requires |ranked| > 0
    ensures var p := Picks(Norms(normalize, ranked), sim, maxResults, |ranked|);
      |selected| == |p| && forall k :: 0 <= k < |p| ==> p[k] < |ranked| && selected[k] == ranked[p[k]]
  {
    ghost var norms := Norms(normalize, ranked);
    selected := [ranked[0]];
    var seen := {normalize(ranked[0].chunk.text)};
    ghost var picks: seq<nat> := [0];
    assert selected == EntriesAt(ranked, picks);
    NormsAt(normalize, ranked, 0);
    SeenSnoc(norms, [], 0);
    assert [] + [0] == picks;
    var i := 1;
    while i < |ranked| && |selected| < maxResults
      invariant 1 <= i <= |ranked|
      invariant picks == Picks(norms, sim, maxResults, i)
      invariant InRange(picks, |ranked|)
      invariant selected == EntriesAt(ranked, picks)
      invariant seen == Seen(norms, picks)
      decreases |ranked| - i
    {
      var current := ranked[i];
      var normalized := normalize(current.chunk.text);
      NormsAt(normalize, ranked, i);
      var diverse := IsDiverse(sim, normalized, seen);
      GreedyStep(norms, sim, maxResults, picks, i, diverse);
      if diverse {
        EntriesAtSnoc(ranked, picks, i);
        selected := selected + [current];
        seen := seen + {normalized};
        picks := picks + [i as nat];
      }
      i := i + 1;
    }
    PicksSettled(norms, sim, maxResults, i, |ranked|);
  }

  function EntriesAt(ranked: seq<RankedChunk>, picks: seq<nat>): (r: seq<RankedChunk>)
    requires InRange(picks, |ranked|)
    ensures |r| == |picks|
    ensures forall k :: 0 <= k < |r| ==> r[k] == ranked[picks[k]]
  {
    seq(|picks|, k requires 0 <= k < |picks| => ranked[picks[k]])
  }

  lemma EntriesAtSnoc(ranked: seq<RankedChunk>, picks: seq<nat>, i: nat)
    requires InRange(picks, |ranked|) && i < |ranked|
    ensures InRange(picks + [i], |ranked|)
    ensures EntriesAt(ranked, picks + [i]) == EntriesAt(ranked, picks) + [ranked[i]]
  {
    assert EntriesAt(ranked, picks + [i]) == EntriesAt(ranked, picks) + [ranked[i]];
  }

  /** One step of the loop of selectDiverseChunks, given the outcome d of isDiverse. */
  lemma GreedyStep(norms: seq<string>, sim: (string, string) -> bool, maxResults: int, picks: seq<nat>, i: nat, d: bool)
    requires 1 <= i < |norms| && picks == Picks(norms, sim, maxResults, i)
    requires |picks| < maxResults
    requires d == Diverse(sim, norms[i], Seen(norms, picks))
    ensures Picks(norms, sim, maxResults, i + 1) == if d then picks + [i] else picks
    ensures d ==> Seen(norms, picks + [i]) == Seen(norms, picks) + {norms[i]}
  {
    PicksInRange(norms, sim, maxResults, i);
    if d {
      SeenSnoc(norms, picks, i);
    }
  }

  lemma SeenSnoc(norms: seq<string>, picks: seq<nat>, i: nat)
    requires i < |norms|
    ensures Seen(norms, picks + [i]) == Seen(norms, picks) + {norms[i]}
  {
    assert (picks + [i])[..|picks|] == picks;
  }

  /** Once the loop stops early (maxResults reached), no later entry is picked. */
  lemma {:induction false} PicksSettled(norms: seq<string>, sim: (string, string) -> bool, maxResults: int, i: nat, j: nat)
    requires 1 <= i <= j <= |norms|
    requires i == |norms| || |Picks(norms, sim, maxResults, i)| >= maxResults
    ensures Picks(norms, sim, maxResults, j) == Picks(norms, sim, maxResults, i)
    decreases j
  {
    if j > i {
      PicksSettled(norms, sim, maxResults, i, j - 1);
    }
  }

  // ---------------------------------------------------------------------
  // Properties of the selection
  // ---------------------------------------------------------------------

  /** The picks are strictly increasing positions: the selection keeps the ranking order. */
  lemma {:induction false} PicksIncreasing(norms: seq<string>, sim: (string, string) -> bool, maxResults: int, i: nat)
    requires 1 <= i <= |norms|
    ensures Increasing(Picks(norms, sim, maxResults, i))
    decreases i
  {
    if i > 1 {
      PicksIncreasing(norms, sim, maxResults, i - 1);
      PicksInRange(norms, sim, maxResults, i - 1);
      var prev := Picks(norms, sim, maxResults, i - 1);
      var p := Picks(norms, sim, maxResults, i);
      if p != prev {
        assert p == prev + [i - 1];
        forall a, b | 0 <= a < b < |p| ensures p[a] < p[b] {
          assert p[a] == prev[a];
          if b < |prev| {
            assert p[b] == prev[b];
          }
        }
      }
    }
  }

  /** With maxResults >= 1 at most maxResults entries are picked. */
  lemma {:induction false} PicksBounded(norms: seq<string>, sim: (string, string) -> bool, maxResults: int, i: nat)
    requires 1 <= i <= |norms| && maxResults >= 1
    ensures |Picks(norms, sim, maxResults, i)| <= maxResults
    decreases i
  {
    if i > 1 {
      PicksBounded(norms, sim, maxResults, i - 1);
    }
  }

  /** Every pick is diverse from every earlier pick. */
  lemma {:induction false} PicksDiverse(norms: seq<string>, sim: (string, string) -> bool, maxResults: int, i: nat, a: nat, b: nat)
    requires 1 <= i <= |norms|
    requires a < b < |Picks(norms, sim, maxResults, i)|
    ensures var p := Picks(norms, sim, maxResults, i); InRange(p, |norms|) && !sim(norms[p[b]], norms[p[a]])
    decreases i
  {
    PicksInRange(norms, sim, maxResults, i);
    var p := Picks(norms, sim, maxResults, i);
    if i > 1 {
      var prev := Picks(norms, sim, maxResults, i - 1);
      PicksInRange(norms, sim, maxResults, i - 1);
      if b < |prev| {
        assert p[a] == prev[a] && p[b] == prev[b];
        PicksDiverse(norms, sim, maxResults, i - 1, a, b);
      } else {
        assert p == prev + [i - 1] && p[a] == prev[a];
        SeenMembers(norms, prev, norms[prev[a]]);
      }
    }
  }

  /**
   * The selection is greedy: a text that was not picked either came when
   * maxResults texts were already picked or was similar to one of them.
   */
  lemma {:induction false} SkippedForAReason(norms: seq<string>, sim: (string, string) -> bool, maxResults: int, i: nat, j: nat)
    requires 1 <= j < i <= |norms|
    requires j !in Picks(norms, sim, maxResults, i)
    ensures var before := Picks(norms, sim, maxResults, j);
      InRange(before, |norms|) &&
      (|before| >= maxResults || exists k :: 0 <= k < |before| && sim(norms[j], norms[before[k]]))
    decreases i
  {
    PicksInRange(norms, sim, maxResults, j);
    var prev := Picks(norms, sim, maxResults, i - 1);
    if j < i - 1 {
      assert forall x :: x in prev ==> x in Picks(norms, sim, maxResults, i);
      SkippedForAReason(norms, sim, maxResults, i - 1, j);
    } else if |prev| < maxResults {
      assert !Diverse(sim, norms[j], Seen(norms, prev));
      var e :| e in Seen(norms, prev) && sim(norms[j], e);
      SeenMembers(norms, prev, e);
      var k :| 0 <= k < |prev| && prev[k] < |norms| && e == norms[prev[k]];
    }
  }

  /** No picked text is similar to an earlier picked one. */
  predicate Apart(norms: seq<string>, sim: (string, string) -> bool, p: seq<nat>)
    requires InRange(p, |norms|)
  {
    forall a, b :: 0 <= a < b < |p| ==> !sim(norms[p[b]], norms[p[a]])
  }

  lemma PicksApart(norms: seq<string>, sim: (string, string) -> bool, maxResults: int, i: nat)
    requires 1 <= i <= |norms|
    ensures InRange(Picks(norms, sim, maxResults, i), |norms|)
    ensures Apart(norms, sim, Picks(norms, sim, maxResults, i))
  {
    PicksInRange(norms, sim, maxResults, i);
    var p := Picks(norms, sim, maxResults, i);
    forall a, b | 0 <= a < b < |p| ensures !sim(norms[p[b]], norms[p[a]]) {
      PicksDiverse(norms, sim, maxResults, i, a, b);
    }
  }

  /**
   * The selection as selectDiverseChunks promises it: all entries when they
   * fit, otherwise the top entry first, in ranking order, pairwise diverse,
   * and at most maxResults of them when maxResults >= 1.
   */
  lemma SelectionShape(ranked: seq<RankedChunk>, maxResults: int)
    requires |ranked| > 0 || maxResults >= 0
    ensures Selection(ranked, maxResults).Ok?
    ensures |ranked| <= maxResults ==> Selection(ranked, maxResults).value == AllChunks(ranked)
    ensures |ranked| > maxResults ==>
      var p := DiversePicks(ranked, maxResults);
      && Selection(ranked, maxResults).value == ChunksAt(ranked, p)
      && p[0] == 0
      && Increasing(p)
      && Apart(Norms(Normalize, ranked), TooSimilar, p)
      && (maxResults >= 1 ==> |p| <= maxResults)
  {
    if |ranked| > maxResults {
      var norms, n := Norms(Normalize, ranked), |ranked|;
      PicksIncreasing(norms, TooSimilar, maxResults, n);
      PicksApart(norms, TooSimilar, maxResults, n);
      if maxResults >= 1 {
        PicksBounded(norms, TooSimilar, maxResults, n);
      }
    }
  }

  /**
   * A ranked entry that selectDiverseChunks leaves out (when not all fit)
   * came after maxResults entries were already chosen, or its normalised text
   * has Jaccard similarity above 0.7 with an entry chosen before it.
   */
  lemma SelectionSkipsForAReason(ranked: seq<RankedChunk>, maxResults: int, j: nat)
    requires 0 < j < |ranked| && |ranked| > maxResults
    requires j !in DiversePicks(ranked, maxResults)
    ensures var norms := Norms(Normalize, ranked);
      var before := Picks(norms, TooSimilar, maxResults, j);
      InRange(before, j) &&
      (|before| >= maxResults || exists k :: 0 <= k < |before| && Jaccard(norms[j], norms[before[k]]) > 0.7)
  {
    var norms := Norms(Normalize, ranked);
    PicksInRange(norms, TooSimilar, maxResults, j);
    SkippedForAReason(norms, TooSimilar, maxResults, |ranked|, j);
    var before := Picks(norms, TooSimilar, maxResults, j);
    if |before| < maxResults {
      var k :| 0 <= k < |before| && TooSimilar(norms[j], norms[before[k]]);
      JaccardFacts(norms[j], norms[before[k]]);
    }
  }

  /** With maxResults 0 or less and some entry, the top entry alone comes back: more than asked for. */
  lemma NonPositiveLimitKeepsTop(ranked: seq<RankedChunk>, maxResults: int)
    requires |ranked| > 0 && maxResults <= 0
    ensures Selection(ranked, maxResults) == Ok([ranked[0].chunk])
  {
    PicksSettled(Norms(Normalize, ranked), TooSimilar, maxResults, 1, |ranked|);
    assert DiversePicks(ranked, maxResults) == [0];
    assert ChunksAt(ranked, [0]) == [ranked[0].chunk];
  }
}
