/**
 * The translation engine (`TranslationEngine`): cache keys, word-overlap
 * similarity, fuzzy lookup over the fixed seed corpus, cache seeding and
 * the `translate_text` decision procedure. The neural model is an
 * uninterpreted parameter.
 */
module Translator {
  import opened Wrappers
  import opened Text
  import opened LruCache
  import opened Metrics

  // ------------------------------------------------------- seed corpus

  /** The Indonesian half of the 15 bilingual seed pairs. */
  function IdSeeds(): seq<string> {
    ["halo nama saya Fahdin",
     "bagaimana kabar Anda hari ini",
     "saya sedang belajar bahasa pemrograman",
     "terima kasih atas bantuan Anda",
     "sampai jumpa besok di kantor",
     "tolong kirimkan email ke saya",
     "saya suka makanan Indonesia",
     "berapa harga tiket ke Jakarta",
     "apakah kamu suka film action",
     "di mana kita bisa bertemu",
     "selamat pagi semua",
     "bagaimana cuaca hari ini",
     "saya akan pergi ke pasar",
     "apakah Anda sudah makan",
     "mari kita mulai rapat"]
  }

  /** The English half, pair by pair. */
  function EnSeeds(): seq<string> {
    ["hello my name is Fahdin",
     "how are you today",
     "I am learning programming language",
     "thank you for your help",
     "see you tomorrow at the office",
     "please send me an email",
     "I like Indonesian food",
     "how much is the ticket to Jakarta",
     "do you like action movies",
     "where can we meet",
     "good morning everyone",
     "how is the weather today",
     "I will go to the market",
     "have you eaten yet",
     "let's start the meeting"]
  }

  const SeedCount := 15

  /** `test_sentences.get(lang, [])`, for the engine's lists `ids` and `ens`. */
  function Corpus(ids: seq<string>, ens: seq<string>, lang: string): seq<string> {
    if lang == "id" then ids else if lang == "en" then ens else []
  }

  // --------------------------------------------------------- cache keys

  /** `_make_cache_key`: `text.lower().strip()`, then the language pair. */
  function MakeCacheKey(text: string, source: string, target: string): string {
    Strip(Lower(text)) + "|" + source + "|" + target
  }

  lemma LowerConcat(a: string, b: string)
    ensures Lower(a + b) == Lower(a) + Lower(b)
  {
    assert forall i :: 0 <= i < |a + b| ==> Lower(a + b)[i] == (Lower(a) + Lower(b))[i] by {
      forall i | 0 <= i < |a + b| ensures Lower(a + b)[i] == (Lower(a) + Lower(b))[i] {
        if i < |a| { assert (a + b)[i] == a[i]; } else { assert (a + b)[i] == b[i - |a|]; }
      }
    }
  }

  /** Texts that differ only in letter case share a cache key. */
  lemma KeyIgnoresCase(a: string, b: string, source: string, target: string)
    requires SameUpToCase(a, b)
    ensures MakeCacheKey(a, source, target) == MakeCacheKey(b, source, target)
  {
    assert Lower(a) == Lower(b);
  }

  /** Texts that differ only in surrounding whitespace share a cache key. */
  lemma KeyIgnoresSurroundingSpace(w1: string, t: string, w2: string, source: string, target: string)
    requires AllSpace(w1) && AllSpace(w2)
    ensures MakeCacheKey(w1 + t + w2, source, target) == MakeCacheKey(t, source, target)
  {
    LowerConcat(w1 + t, w2);
    LowerConcat(w1, t);
    assert Lower(w1) == w1;
    assert Lower(w2) == w2;
    StripIgnoresSurroundingSpace(w1, Lower(t), w2);
  }

  // --------------------------------------------------------- similarity

  lemma SubsetCard<T>(a: set<T>, b: set<T>)
    requires a <= b
    ensures |a| <= |b|
  {
    assert b == a + (b - a);
  }

  /** `i / u` for a count `i` of at most `u`. */
  function Ratio(i: nat, u: nat): (r: real)
    requires 0 < u && i <= u
    ensures 0.0 <= r <= 1.0
    ensures r * (u as real) == i as real
  {
    QuotientBounds(i as real, u as real, 0.0, 1.0);
    Quotient(i as real, u as real)
  }

  /** Jaccard index of two finite sets of words, 0 when either is empty. */
  function Jaccard(a: set<string>, b: set<string>): (r: real)
    ensures 0.0 <= r <= 1.0
    ensures a == {} || b == {} ==> r == 0.0
  {
    if a == {} || b == {} then 0.0
    else
      SubsetCard(a * b, a + b);
      SubsetCard(a, a + b);
      Ratio(|a * b|, |a + b|)
  }

  /** `_calculate_similarity`: Jaccard similarity of the two word sets,
      0 when either text has no words. The source computes it in floating
      point; the quotient of two small counts is compared exactly here. */
  function Similarity(text1: string, text2: string): (r: real)
    ensures 0.0 <= r <= 1.0
    ensures WordSet(text1) == {} || WordSet(text2) == {} ==> r == 0.0
  {
    Jaccard(WordSet(text1), WordSet(text2))
  }

  lemma SimilaritySymmetric(text1: string, text2: string)
    ensures Similarity(text1, text2) == Similarity(text2, text1)
  {
    var w1 := WordSet(text1);
    var w2 := WordSet(text2);
    assert w1 * w2 == w2 * w1;
    assert w1 + w2 == w2 + w1;
  }

  /** `r > 0.6` for `r = i / u`, scaled by `u > 0`. */
  lemma ScaledThreshold(r: real, ir: real, ur: real)
    requires ur > 0.0 && r * ur == ir
    ensures r > 0.6 <==> 5.0 * ir > 3.0 * ur
  {
    assert (r - 0.6) * ur == r * ur - 0.6 * ur;
    if r > 0.6 { assert (r - 0.6) * ur > 0.0; } else { assert (0.6 - r) * ur >= 0.0; }
  }

  lemma RatioAboveThreshold(i: nat, u: nat)
    requires 0 < u && i <= u
    ensures Ratio(i, u) > 0.6 <==> 5 * i > 3 * u
  {
    ScaledThreshold(Ratio(i, u), i as real, u as real);
    assert (5 * i) as real == 5.0 * (i as real) && (3 * u) as real == 3.0 * (u as real);
  }

  /** The acceptance test `score > 0.6` in whole numbers:
      `5·|A∩B| > 3·|A∪B|`. */
  lemma AboveThreshold(text1: string, text2: string)
    ensures var w1, w2 := WordSet(text1), WordSet(text2);
      Similarity(text1, text2) > 0.6 <==>
      (w1 != {} && w2 != {} && 5 * |w1 * w2| > 3 * |w1 + w2|)
  {
    var w1, w2 := WordSet(text1), WordSet(text2);
    if w1 != {} && w2 != {} {
      SubsetCard(w1 * w2, w1 + w2);
      SubsetCard(w1, w1 + w2);
      assert Similarity(text1, text2) == Ratio(|w1 * w2|, |w1 + w2|);
      RatioAboveThreshold(|w1 * w2|, |w1 + w2|);
    }
  }

  // -------------------------------------------------------- fuzzy match

  /** The score `_try_fuzzy_match` gives a seed sentence. */
  function Score(text: string, seed: string): real {
    Similarity(Lower(text), Lower(seed))
  }

  function Scores(text: string, seeds: seq<string>): (r: seq<real>)
    ensures |r| == |seeds|
    ensures forall j :: 0 <= j < |seeds| ==> r[j] == Score(text, seeds[j])
  {
    seq(|seeds|, j requires 0 <= j < |seeds| => Score(text, seeds[j]))
  }

  /** The position the scan settles on, given the scores in order: a
      candidate replaces the best so far only when it exceeds 0.6 and is
      strictly higher than the best so far. */
  function BestIndex(scores: seq<real>): (r: Option<nat>)
    ensures r.Some? ==> r.value < |scores|
    decreases |scores|
  {
    if scores == [] then None
    else
      var n := |scores| - 1;
      var b := BestIndex(scores[..n]);
      var s := scores[n];
      if s > 0.6 && (b.None? || s > scores[b.value]) then Some(n) else b
  }

  lemma BestIndexSnoc(p: seq<real>, s: real)
    ensures var b := BestIndex(p);
      BestIndex(p + [s]) == if s > 0.6 && (b.None? || s > p[b.value]) then Some(|p|) else b
  {
    assert (p + [s])[..|p|] == p;
  }

  /** The earliest position with the highest score, provided that score
      exceeds 0.6; none when no score exceeds it. */
  predicate IsBestIndex(scores: seq<real>, r: Option<nat>) {
    && (r.None? <==> forall j :: 0 <= j < |scores| ==> scores[j] <= 0.6)
    && (r.Some? ==>
          && r.value < |scores|
          && scores[r.value] > 0.6
          && (forall j :: 0 <= j < |scores| ==> scores[j] <= scores[r.value])
          && (forall j :: 0 <= j < r.value ==> scores[j] < scores[r.value]))
  }

  lemma {:induction false} BestIndexSpec(scores: seq<real>)
    ensures IsBestIndex(scores, BestIndex(scores))
    decreases |scores|
  {
    if scores != [] {
      var n := |scores| - 1;
      var p := scores[..n];
      BestIndexSpec(p);
      assert forall j :: 0 <= j < n ==> p[j] == scores[j];
    }
  }

  /** `_try_fuzzy_match`'s choice among `seeds` for `text`. */
  function BestOf(text: string, seeds: seq<string>): (r: Option<nat>) {
    BestIndex(Scores(text, seeds))
  }

  /** The fuzzy match is the earliest seed with the highest score, provided
      that score exceeds 0.6; no seed is chosen when none exceeds it. */
  lemma BestOfSpec(text: string, seeds: seq<string>)
    ensures var r := BestOf(text, seeds);
      && (r.None? <==> forall j :: 0 <= j < |seeds| ==> Score(text, seeds[j]) <= 0.6)
      && (r.Some? ==>
            && r.value < |seeds|
            && Score(text, seeds[r.value]) > 0.6
            && (forall j :: 0 <= j < |seeds| ==> Score(text, seeds[j]) <= Score(text, seeds[r.value]))
            && (forall j :: 0 <= j < r.value ==> Score(text, seeds[j]) < Score(text, seeds[r.value])))
  {
    BestIndexSpec(Scores(text, seeds));
  }

  /** One step of the scan, in terms of the best score kept so far. */
  lemma BestStep(scores: seq<real>, i: nat, best: Option<nat>, bestScore: real)
    requires i < |scores| && best == BestIndex(scores[..i])
    requires best.Some? ==> best.value < i && bestScore == scores[best.value]
    requires best.None? ==> bestScore == 0.0
    ensures BestIndex(scores[..i + 1]) == if scores[i] > 0.6 && scores[i] > bestScore then Some(i) else best
  {
    assert scores[..i + 1] == scores[..i] + [scores[i]];
    BestIndexSnoc(scores[..i], scores[i]);
  }

  /** The scan of `_try_fuzzy_match` over the seed list. */
  method BestMatch(text: string, seeds: seq<string>) returns (best: Option<nat>)
    ensures best == BestOf(text, seeds)
  {
    ghost var scores := Scores(text, seeds);
    best := None;
    var bestScore := 0.0;
    var i := 0;
    while i < |seeds|
      invariant 0 <= i <= |seeds|
      invariant best == BestIndex(scores[..i])
      invariant best.Some? ==> best.value < i && bestScore == scores[best.value]
      invariant best.None? ==> bestScore == 0.0
    {
      var score := Score(text, seeds[i]);
      assert score == scores[i];
      BestStep(scores, i, best, bestScore);
      if score > 0.6 && score > bestScore {
        bestScore := score;
        best := Some(i);
      }
      i := i + 1;
    }
    assert scores[..|seeds|] == scores;
  }

  // ------------------------------------------------------ cache seeding

  /** The entries `_initialize_cache` caches in one direction: each sentence
      of `src` under its key for the pair `source`/`target`, with the
      sentence of `dst` at the same position as its value. */
  function Directed(src: seq<string>, dst: seq<string>, source: string, target: string): (r: seq<Entry>)
    requires |src| == |dst|
    ensures |r| == |src|
  {
    seq(|src|, i requires 0 <= i < |src| => Entry(MakeCacheKey(src[i], source, target), dst[i]))
  }

  lemma DirectedAt(src: seq<string>, dst: seq<string>, source: string, target: string, i: nat)
    requires |src| == |dst| && i < |src|
    ensures Directed(src, dst, source, target)[i] == Entry(MakeCacheKey(src[i], source, target), dst[i])
  {
  }

  /** `a[0], b[0], a[1], b[1], ...` for the first `n` positions: the order of
      the puts in a loop that caches both directions of each pair. */
  function Interleave(a: seq<Entry>, b: seq<Entry>, n: nat): (r: seq<Entry>)
    requires n <= |a| && n <= |b|
    ensures |r| == 2 * n
  {
    if n == 0 then [] else Interleave(a, b, n - 1) + [a[n - 1], b[n - 1]]
  }

  lemma {:induction false} InterleaveAt(a: seq<Entry>, b: seq<Entry>, n: nat, i: nat)
    requires n <= |a| && n <= |b| && i < n
    ensures Interleave(a, b, n)[2 * i] == a[i]
    ensures Interleave(a, b, n)[2 * i + 1] == b[i]
  {
    if i < n - 1 {
      InterleaveAt(a, b, n - 1, i);
    }
  }

  /** Where position `x` of the interleaving comes from in `a + b`. */
  function Origin(n: nat, x: nat): nat {
    if x % 2 == 0 then x / 2 else n + x / 2
  }

  lemma InterleaveOrigin(a: seq<Entry>, b: seq<Entry>, x: nat)
    requires |a| == |b| && x < 2 * |a|
    ensures Origin(|a|, x) < |a + b|
    ensures Interleave(a, b, |a|)[x] == (a + b)[Origin(|a|, x)]
  {
    var i := x / 2;
    InterleaveAt(a, b, |a|, i);
    if x % 2 == 0 {
      assert x == 2 * i;
    } else {
      assert x == 2 * i + 1;
    }
  }

  /** Interleaving keeps keys distinct. */
  lemma InterleaveDistinct(a: seq<Entry>, b: seq<Entry>)
    requires |a| == |b| && DistinctKeys(a + b)
    ensures DistinctKeys(Interleave(a, b, |a|))
  {
    var r := Interleave(a, b, |a|);
    forall x, y | 0 <= x < y < |r| ensures r[x].key != r[y].key {
      InterleaveOrigin(a, b, x);
      InterleaveOrigin(a, b, y);
      var px := Origin(|a|, x);
      var py := Origin(|a|, y);
      assert px != py;
      if px < py {
        assert (a + b)[px].key != (a + b)[py].key;
      } else {
        assert (a + b)[py].key != (a + b)[px].key;
      }
    }
  }

  /** The puts of `_initialize_cache` for the first `n` pairs of
      `zip(ids, ens)`: each pair forwards, then backwards. */
  function SeedPrefix(ids: seq<string>, ens: seq<string>, n: nat): (r: seq<Entry>)
    requires |ids| == |ens| && n <= |ids|
    ensures |r| == 2 * n
  {
    if n == 0 then []
    else SeedPrefix(ids, ens, n - 1)
         + [Entry(MakeCacheKey(ids[n - 1], "id", "en"), ens[n - 1]), Entry(MakeCacheKey(ens[n - 1], "en", "id"), ids[n - 1])]
  }

  /** All the puts of `_initialize_cache`, in order. */
  function SeedEntries(ids: seq<string>, ens: seq<string>): (r: seq<Entry>)
    requires |ids| == |ens|
    ensures |r| == 2 * |ids|
  {
    Interleave(Directed(ids, ens, "id", "en"), Directed(ens, ids, "en", "id"), |ids|)
  }

  /** The seeding puts interleave the two directions. */
  lemma {:induction false} SeedPrefixInterleaves(ids: seq<string>, ens: seq<string>, n: nat)
    requires |ids| == |ens| && n <= |ids|
    ensures SeedPrefix(ids, ens, n) == Interleave(Directed(ids, ens, "id", "en"), Directed(ens, ids, "en", "id"), n)
  {
    if n > 0 {
      var a, b := Directed(ids, ens, "id", "en"), Directed(ens, ids, "en", "id");
      SeedPrefixInterleaves(ids, ens, n - 1);
      DirectedAt(ids, ens, "id", "en", n - 1);
      DirectedAt(ens, ids, "en", "id", n - 1);
      assert Interleave(a, b, n) == Interleave(a, b, n - 1) + [a[n - 1], b[n - 1]];
    }
  }

  /** A seed sentence with no surrounding whitespace: its cache key starts
      with its own lowered text. */
  predicate Trimmed(s: string) {
    |s| >= 2 && !IsSpace(s[0]) && !IsSpace(s[|s| - 1])
  }

  /** What tells two seed sentences apart: length and first two letters. */
  function Sig(s: string): (nat, char, char)
    requires |s| >= 2
  {
    (|s|, LowerChar(s[0]), LowerChar(s[1]))
  }

  /** The signatures of the Indonesian seeds, in order. */
  function IdSigs(): seq<(nat, char, char)> {
    [(21, 'h', 'a'), (29, 'b', 'a'), (38, 's', 'a'), (30, 't', 'e'), (28, 's', 'a'),
     (29, 't', 'o'), (27, 's', 'a'), (29, 'b', 'e'), (28, 'a', 'p'), (25, 'd', 'i'),
     (18, 's', 'e'), (24, 'b', 'a'), (24, 's', 'a'), (23, 'a', 'p'), (21, 'm', 'a')]
  }

  /** The signatures of the English seeds, in order. */
  function EnSigs(): seq<(nat, char, char)> {
    [(23, 'h', 'e'), (17, 'h', 'o'), (34, 'i', ' '), (23, 't', 'h'), (30, 's', 'e'),
     (23, 'p', 'l'), (22, 'i', ' '), (33, 'h', 'o'), (25, 'd', 'o'), (17, 'w', 'h'),
     (21, 'g', 'o'), (24, 'h', 'o'), (23, 'i', ' '), (18, 'h', 'a'), (23, 'l', 'e')]
  }

  predicate Tabulated(ss: seq<string>, sigs: seq<(nat, char, char)>) {
    |ss| == |sigs| && forall i :: 0 <= i < |ss| ==> Trimmed(ss[i]) && Sig(ss[i]) == sigs[i]
  }

  predicate AllDifferent<T(==)>(t: seq<T>) {
    forall i, j :: 0 <= i < j < |t| ==> t[i] != t[j]
  }

  /** Sentences with pairwise different tabulated signatures are separable. */
  lemma TabulatedSeparable(ss: seq<string>, sigs: seq<(nat, char, char)>)
    requires Tabulated(ss, sigs) && AllDifferent(sigs)
    ensures Separable(ss)
  {
    forall i, j | 0 <= i < j < |ss| ensures Sig(ss[i]) != Sig(ss[j]) {
      assert sigs[i] != sigs[j];
    }
  }

  /** The signature table, checked one literal sentence at a time. */
  lemma IdSeedsHead()
    ensures Trimmed(IdSeeds()[0]) && Sig(IdSeeds()[0]) == IdSigs()[0]
    ensures Trimmed(IdSeeds()[1]) && Sig(IdSeeds()[1]) == IdSigs()[1]
    ensures Trimmed(IdSeeds()[2]) && Sig(IdSeeds()[2]) == IdSigs()[2]
    ensures Trimmed(IdSeeds()[3]) && Sig(IdSeeds()[3]) == IdSigs()[3]
    ensures Trimmed(IdSeeds()[4]) && Sig(IdSeeds()[4]) == IdSigs()[4]
    ensures Trimmed(IdSeeds()[5]) && Sig(IdSeeds()[5]) == IdSigs()[5]
    ensures Trimmed(IdSeeds()[6]) && Sig(IdSeeds()[6]) == IdSigs()[6]
    ensures Trimmed(IdSeeds()[7]) && Sig(IdSeeds()[7]) == IdSigs()[7]
  {
  }

  lemma IdSeedsTail()
    ensures Trimmed(IdSeeds()[8]) && Sig(IdSeeds()[8]) == IdSigs()[8]
    ensures Trimmed(IdSeeds()[9]) && Sig(IdSeeds()[9]) == IdSigs()[9]
    ensures Trimmed(IdSeeds()[10]) && Sig(IdSeeds()[10]) == IdSigs()[10]
    ensures Trimmed(IdSeeds()[11]) && Sig(IdSeeds()[11]) == IdSigs()[11]
    ensures Trimmed(IdSeeds()[12]) && Sig(IdSeeds()[12]) == IdSigs()[12]
    ensures Trimmed(IdSeeds()[13]) && Sig(IdSeeds()[13]) == IdSigs()[13]
    ensures Trimmed(IdSeeds()[14]) && Sig(IdSeeds()[14]) == IdSigs()[14]
  {
  }

  lemma IdSeedsTabulated()
    ensures Tabulated(IdSeeds(), IdSigs())
  {
    IdSeedsHead();
    IdSeedsTail();
    forall i | 0 <= i < SeedCount ensures Trimmed(IdSeeds()[i]) && Sig(IdSeeds()[i]) == IdSigs()[i] {
      assert i == 0 || i == 1 || i == 2 || i == 3 || i == 4 || i == 5 || i == 6 || i == 7
        || i == 8 || i == 9 || i == 10 || i == 11 || i == 12 || i == 13 || i == 14;
    }
  }

  lemma EnSeedsHead()
    ensures Trimmed(EnSeeds()[0]) && Sig(EnSeeds()[0]) == EnSigs()[0]
    ensures Trimmed(EnSeeds()[1]) && Sig(EnSeeds()[1]) == EnSigs()[1]
    ensures Trimmed(EnSeeds()[2]) && Sig(EnSeeds()[2]) == EnSigs()[2]
    ensures Trimmed(EnSeeds()[3]) && Sig(EnSeeds()[3]) == EnSigs()[3]
    ensures Trimmed(EnSeeds()[4]) && Sig(EnSeeds()[4]) == EnSigs()[4]
    ensures Trimmed(EnSeeds()[5]) && Sig(EnSeeds()[5]) == EnSigs()[5]
    ensures Trimmed(EnSeeds()[6]) && Sig(EnSeeds()[6]) == EnSigs()[6]
    ensures Trimmed(EnSeeds()[7]) && Sig(EnSeeds()[7]) == EnSigs()[7]
  {
  }

  lemma EnSeedsTail()
    ensures Trimmed(EnSeeds()[8]) && Sig(EnSeeds()[8]) == EnSigs()[8]
    ensures Trimmed(EnSeeds()[9]) && Sig(EnSeeds()[9]) == EnSigs()[9]
    ensures Trimmed(EnSeeds()[10]) && Sig(EnSeeds()[10]) == EnSigs()[10]
    ensures Trimmed(EnSeeds()[11]) && Sig(EnSeeds()[11]) == EnSigs()[11]
    ensures Trimmed(EnSeeds()[12]) && Sig(EnSeeds()[12]) == EnSigs()[12]
    ensures Trimmed(EnSeeds()[13]) && Sig(EnSeeds()[13]) == EnSigs()[13]
    ensures Trimmed(EnSeeds()[14]) && Sig(EnSeeds()[14]) == EnSigs()[14]
  {
  }

  lemma EnSeedsTabulated()
    ensures Tabulated(EnSeeds(), EnSigs())
  {
    EnSeedsHead();
    EnSeedsTail();
    forall i | 0 <= i < SeedCount ensures Trimmed(EnSeeds()[i]) && Sig(EnSeeds()[i]) == EnSigs()[i] {
      assert i == 0 || i == 1 || i == 2 || i == 3 || i == 4 || i == 5 || i == 6 || i == 7
        || i == 8 || i == 9 || i == 10 || i == 11 || i == 12 || i == 13 || i == 14;
    }
  }

  lemma IdSigsDifferent()
    ensures AllDifferent(IdSigs())
  {
    forall i, j | 0 <= i < j < SeedCount ensures IdSigs()[i] != IdSigs()[j] {
      assert i == 0 || i == 1 || i == 2 || i == 3 || i == 4 || i == 5 || i == 6 || i == 7
        || i == 8 || i == 9 || i == 10 || i == 11 || i == 12 || i == 13;
    }
  }

  lemma EnSigsDifferent()
    ensures AllDifferent(EnSigs())
  {
    forall i, j | 0 <= i < j < SeedCount ensures EnSigs()[i] != EnSigs()[j] {
      assert i == 0 || i == 1 || i == 2 || i == 3 || i == 4 || i == 5 || i == 6 || i == 7
        || i == 8 || i == 9 || i == 10 || i == 11 || i == 12 || i == 13;
    }
  }

  /** A trimmed sentence's key is its lowered text and the language pair. */
  lemma TrimmedKey(s: string, source: string, target: string)
    requires Trimmed(s)
    ensures MakeCacheKey(s, source, target) == Lower(s) + "|" + source + "|" + target
  {
    var l := Lower(s);
    assert !IsSpace(l[0]) && !IsSpace(l[|l| - 1]);
    assert TrimLeft(l) == l;
    assert TrimRight(l) == l;
  }

  /** Keys of trimmed sentences differ when the sentences' signatures differ
      under language pairs of the same length, or when the target languages
      end in different letters. */
  lemma TrimmedKeysDiffer(a: string, sa: string, ta: string, b: string, sb: string, tb: string)
    requires Trimmed(a) && Trimmed(b) && ta != [] && tb != []
    requires (|sa| + |ta| == |sb| + |tb| && Sig(a) != Sig(b)) || ta[|ta| - 1] != tb[|tb| - 1]
    ensures MakeCacheKey(a, sa, ta) != MakeCacheKey(b, sb, tb)
  {
    if ta[|ta| - 1] != tb[|tb| - 1] {
      KeysDifferInTarget(a, sa, ta, b, sb, tb);
    } else {
      KeysDifferInSentence(a, sa, ta, b, sb, tb);
    }
  }

  lemma KeysDifferInTarget(a: string, sa: string, ta: string, b: string, sb: string, tb: string)
    requires Trimmed(a) && Trimmed(b) && ta != [] && tb != [] && ta[|ta| - 1] != tb[|tb| - 1]
    ensures MakeCacheKey(a, sa, ta) != MakeCacheKey(b, sb, tb)
  {
    TrimmedKey(a, sa, ta);
    TrimmedKey(b, sb, tb);
    KeyShape(Lower(a), sa, ta);
    KeyShape(Lower(b), sb, tb);
  }

  lemma KeysDifferInSentence(a: string, sa: string, ta: string, b: string, sb: string, tb: string)
    requires Trimmed(a) && Trimmed(b) && ta != [] && tb != []
    requires |sa| + |ta| == |sb| + |tb| && Sig(a) != Sig(b)
    ensures MakeCacheKey(a, sa, ta) != MakeCacheKey(b, sb, tb)
  {
    TrimmedKey(a, sa, ta);
    TrimmedKey(b, sb, tb);
    var la, lb := Lower(a), Lower(b);
    KeyShape(la, sa, ta);
    KeyShape(lb, sb, tb);
    assert la[0] == LowerChar(a[0]) && la[1] == LowerChar(a[1]);
    assert lb[0] == LowerChar(b[0]) && lb[1] == LowerChar(b[1]);
  }

  /** Length, first two and last letter of a key built from a sentence of
      at least two letters. */
  lemma KeyShape(l: string, source: string, target: string)
    requires |l| >= 2 && target != []
    ensures var k := l + "|" + source + "|" + target;
      |k| == |l| + |source| + |target| + 2 && k[0] == l[0] && k[1] == l[1]
      && k[|k| - 1] == target[|target| - 1]
  {
  }

  /** Sentences whose keys cannot collide: trimmed, with distinct
      signatures. */
  predicate Separable(ss: seq<string>) {
    && (forall i :: 0 <= i < |ss| ==> Trimmed(ss[i]))
    && (forall i, j {:trigger Sig(ss[i]), Sig(ss[j])} :: 0 <= i < j < |ss| ==> Sig(ss[i]) != Sig(ss[j]))
  }

  /** Within one direction, separable sentences have distinct keys. */
  lemma DirectedOneDistinct(src: seq<string>, dst: seq<string>, source: string, target: string)
    requires |src| == |dst| && Separable(src) && target != []
    ensures DistinctKeys(Directed(src, dst, source, target))
  {
    var a := Directed(src, dst, source, target);
    forall x, y | 0 <= x < y < |a| ensures a[x].key != a[y].key {
      TrimmedKeysDiffer(src[x], source, target, src[y], source, target);
    }
  }

  /** Keys of opposite directions never meet when the two languages end
      in different letters. */
  lemma DirectedCrossDistinct(src: seq<string>, dst: seq<string>, source: string, target: string)
    requires |src| == |dst| && Separable(src) && Separable(dst)
    requires source != [] && target != [] && source[|source| - 1] != target[|target| - 1]
    ensures forall x, y :: 0 <= x < |src| && 0 <= y < |dst| ==>
      Directed(src, dst, source, target)[x].key != Directed(dst, src, target, source)[y].key
  {
    var a := Directed(src, dst, source, target);
    var b := Directed(dst, src, target, source);
    forall x, y | 0 <= x < |src| && 0 <= y < |dst| ensures a[x].key != b[y].key {
      TrimmedKeysDiffer(src[x], source, target, dst[y], target, source);
    }
  }

  /** The keys of both directions are pairwise distinct for separable
      sentence lists. */
  lemma DirectedDistinct(ids: seq<string>, ens: seq<string>)
    requires |ids| == |ens| && Separable(ids) && Separable(ens)
    ensures DistinctKeys(Directed(ids, ens, "id", "en") + Directed(ens, ids, "en", "id"))
  {
    var a := Directed(ids, ens, "id", "en");
    var b := Directed(ens, ids, "en", "id");
    DirectedOneDistinct(ids, ens, "id", "en");
    DirectedOneDistinct(ens, ids, "en", "id");
    DirectedCrossDistinct(ids, ens, "id", "en");
    DistinctConcat(a, b);
  }

  /** Both entries of every position can be looked up in a cache with
      distinct keys that holds them side by side. */
  lemma PairedLookups(es: seq<Entry>, a: seq<Entry>, b: seq<Entry>)
    requires |a| == |b| && |es| == 2 * |a| && DistinctKeys(es)
    requires forall i :: 0 <= i < |a| ==> es[2 * i] == a[i] && es[2 * i + 1] == b[i]
    ensures forall i :: 0 <= i < |a| ==>
      Lookup(es, a[i].key) == Some(a[i].value) && Lookup(es, b[i].key) == Some(b[i].value)
  {
    forall i | 0 <= i < |a|
      ensures Lookup(es, a[i].key) == Some(a[i].value) && Lookup(es, b[i].key) == Some(b[i].value)
    {
      LookupAt(es, 2 * i);
      LookupAt(es, 2 * i + 1);
    }
  }

  /** Interleaved puts of distinct keys into an empty cache with room for
      all of them keep every entry retrievable. */
  lemma InterleaveAllCached(a: seq<Entry>, b: seq<Entry>, cap: nat)
    requires |a| == |b| && DistinctKeys(a + b) && cap >= 2 * |a| && cap > 0
    ensures PutAll([], Interleave(a, b, |a|), cap) == Interleave(a, b, |a|)
    ensures forall i :: 0 <= i < |a| ==>
      Lookup(Interleave(a, b, |a|), a[i].key) == Some(a[i].value)
      && Lookup(Interleave(a, b, |a|), b[i].key) == Some(b[i].value)
  {
    var es := Interleave(a, b, |a|);
    InterleaveDistinct(a, b);
    assert [] + es == es;
    PutAllFresh([], es, cap);
    forall i | 0 <= i < |a| ensures es[2 * i] == a[i] && es[2 * i + 1] == b[i] {
      InterleaveAt(a, b, |a|, i);
    }
    PairedLookups(es, a, b);
  }

  /** The fixed corpus: fifteen pairs of separable sentences. */
  lemma SeedsSeparable(ids: seq<string>, ens: seq<string>)
    requires ids == IdSeeds() && ens == EnSeeds()
    ensures |ids| == |ens| == SeedCount
    ensures Separable(ids) && Separable(ens)
  {
    IdSeedsTabulated();
    EnSeedsTabulated();
    IdSigsDifferent();
    EnSigsDifferent();
    TabulatedSeparable(ids, IdSigs());
    TabulatedSeparable(ens, EnSigs());
  }

  /** Seeding an empty cache with room for every put caches each pair in
      both directions, evicting nothing. */
  lemma SeedsAllCached(ids: seq<string>, ens: seq<string>, cap: nat)
    requires |ids| == |ens| && Separable(ids) && Separable(ens) && cap >= 2 * |ids| && cap > 0
    ensures DistinctKeys(SeedEntries(ids, ens))
    ensures PutAll([], SeedEntries(ids, ens), cap) == SeedEntries(ids, ens)
    ensures forall i :: 0 <= i < |ids| ==>
      Lookup(SeedEntries(ids, ens), MakeCacheKey(ids[i], "id", "en")) == Some(ens[i])
    ensures forall i :: 0 <= i < |ids| ==>
      Lookup(SeedEntries(ids, ens), MakeCacheKey(ens[i], "en", "id")) == Some(ids[i])
  {
    var a := Directed(ids, ens, "id", "en");
    var b := Directed(ens, ids, "en", "id");
    DirectedDistinct(ids, ens);
    InterleaveDistinct(a, b);
    InterleaveAllCached(a, b, cap);
    forall i | 0 <= i < |ids|
      ensures Lookup(SeedEntries(ids, ens), MakeCacheKey(ids[i], "id", "en")) == Some(ens[i])
      ensures Lookup(SeedEntries(ids, ens), MakeCacheKey(ens[i], "en", "id")) == Some(ids[i])
    {
      DirectedAt(ids, ens, "id", "en", i);
      DirectedAt(ens, ids, "en", "id", i);
    }
  }

  // ------------------------------------------------------ fuzzy lookup

  /** `_try_fuzzy_match` on cache contents `es`: the cached translation of
      the best-matching seed sentence (None when no seed scores above 0.6
      or the seed's entry is gone), and the cache after that `get`. */
  function Fuzzy(es: seq<Entry>, ids: seq<string>, ens: seq<string>, text: string, source: string, target: string): (Option<string>, seq<Entry>) {
    var seeds := Corpus(ids, ens, source);
    var best := BestOf(text, seeds);
    if best.None? then (None, es)
    else
      var key := MakeCacheKey(seeds[best.value], source, target);
      (Lookup(es, key), Touched(es, key))
  }

  // ---------------------------------------------------- translate_text

  /** The clock readings one call takes: the preprocessing and model
      durations and the total elapsed time in milliseconds, and the hour
      recorded in the metrics timestamp. */
  datatype Clock = Clock(preprocessingMs: real, translationMs: real, elapsedMs: real, hour: nat)

  /** What one call returns, and the cache contents it leaves. */
  datatype Translated = Translated(text: string, metrics: TranslationMetrics, entries: seq<Entry>)

  /** The model call `_perform_translation(text, source, target)`: its
      output, or None when it raises. */
  type Model = (string, string, string) -> Option<string>

  function Report(length: nat, source: string, target: string, pre: real, mt: real, total: real, hit: bool, clock: Clock): TranslationMetrics {
    TranslationMetrics(length, source, target, pre, mt, total, hit, clock.hour)
  }

  /** `translate_text` on cache contents `es` with capacity `cap`. */
  function Translate(es: seq<Entry>, cap: nat, ids: seq<string>, ens: seq<string>, text: string, source: string,
                     target: string, isPartial: bool, model: Model, clock: Clock): Translated
    requires cap > 0
  {
    if source == target then
      Translated(text, Report(|text|, source, target, 0.0, 0.0, 0.0, false, clock), es)
    else if IsBlank(text) then
      Translated(text, Report(0, source, target, 0.0, 0.0, 0.0, false, clock), es)
    else
      var key := MakeCacheKey(text, source, target);
      var cached := Lookup(es, key);
      if cached.Some? && cached.value != "" then
        Translated(cached.value, Report(|text|, source, target, 0.0, 0.0, clock.elapsedMs, true, clock), Touched(es, key))
      else
        Resolve(Touched(es, key), cap, ids, ens, key, text, source, target, isPartial, model, clock)
  }

  /** The rest of `translate_text` after an exact miss, on the cache `es`
      left by the lookup of `key`: the fuzzy lookup for short final
      requests, then the model. */
  function Resolve(es: seq<Entry>, cap: nat, ids: seq<string>, ens: seq<string>, key: string, text: string,
                   source: string, target: string, isPartial: bool, model: Model, clock: Clock): Translated
    requires cap > 0
  {
    var fuzzy := if |text| < 50 && !isPartial then Fuzzy(es, ids, ens, text, source, target) else (None, es);
    if fuzzy.0.Some? && fuzzy.0.value != "" then
      Translated(fuzzy.0.value, Report(|text|, source, target, 0.0, clock.elapsedMs * 0.8, clock.elapsedMs, true, clock),
                 Stored(fuzzy.1, key, fuzzy.0.value, cap))
    else
      Generate(fuzzy.1, cap, key, text, source, target, isPartial, model, clock)
  }

  lemma ResolveFuzzyHit(es: seq<Entry>, cap: nat, ids: seq<string>, ens: seq<string>, key: string, text: string,
                        source: string, target: string, model: Model, clock: Clock)
    requires cap > 0 && |text| < 50
    requires var f := Fuzzy(es, ids, ens, text, source, target); f.0.Some? && f.0.value != ""
    ensures var f := Fuzzy(es, ids, ens, text, source, target);
      Resolve(es, cap, ids, ens, key, text, source, target, false, model, clock)
      == Translated(f.0.value, Report(|text|, source, target, 0.0, clock.elapsedMs * 0.8, clock.elapsedMs, true, clock),
                    Stored(f.1, key, f.0.value, cap))
  {
  }

  lemma ResolveFuzzyMiss(es: seq<Entry>, cap: nat, ids: seq<string>, ens: seq<string>, key: string, text: string,
                         source: string, target: string, model: Model, clock: Clock)
    requires cap > 0 && |text| < 50
    requires var f := Fuzzy(es, ids, ens, text, source, target); !(f.0.Some? && f.0.value != "")
    ensures Resolve(es, cap, ids, ens, key, text, source, target, false, model, clock)
      == Generate(Fuzzy(es, ids, ens, text, source, target).1, cap, key, text, source, target, false, model, clock)
  {
  }

  /** The model path: clean, translate, and cache the output unless the
      request is partial; the original text when the model call fails. */
  function Generate(es: seq<Entry>, cap: nat, key: string, text: string, source: string, target: string,
                    isPartial: bool, model: Model, clock: Clock): Translated
    requires cap > 0
  {
    match model(CleanText(text), source, target)
    case None =>
      Translated(text, Report(|text|, source, target, 0.0, 0.0, clock.elapsedMs, false, clock), es)
    case Some(out) =>
      Translated(out, Report(|text|, source, target, clock.preprocessingMs, clock.translationMs, clock.elapsedMs, false, clock),
                 if isPartial then es else Stored(es, key, out, cap))
  }

  // ------------------------------------------- properties of translate_text

  /** Same language pair or blank text: the input comes back unchanged as a
      miss and the cache is not consulted. */
  lemma TranslateEarlyReturn(es: seq<Entry>, cap: nat, ids: seq<string>, ens: seq<string>, text: string,
                             source: string, target: string, isPartial: bool, model: Model, clock: Clock)
    requires cap > 0 && (source == target || IsBlank(text))
    ensures var r := Translate(es, cap, ids, ens, text, source, target, isPartial, model, clock);
      && r.text == text && !r.metrics.cacheHit && r.entries == es
      && r.metrics.textLength == (if source == target then |text| else 0)
      && r.metrics.totalMs == 0.0
  {
  }

  /** A truthy cached value under the query's key is returned as a hit, and
      its entry becomes the most recently used. */
  lemma TranslateExactHit(es: seq<Entry>, cap: nat, ids: seq<string>, ens: seq<string>, text: string,
                          source: string, target: string, isPartial: bool, model: Model, clock: Clock)
    requires cap > 0 && DistinctKeys(es) && source != target && !IsBlank(text)
    requires Lookup(es, MakeCacheKey(text, source, target)).Some?
    requires Lookup(es, MakeCacheKey(text, source, target)).value != ""
    ensures var r := Translate(es, cap, ids, ens, text, source, target, isPartial, model, clock);
      && Some(r.text) == Lookup(es, MakeCacheKey(text, source, target))
      && r.metrics.cacheHit
      && r.entries[|r.entries| - 1] == Entry(MakeCacheKey(text, source, target), r.text)
      && forall k :: Lookup(r.entries, k) == Lookup(es, k)
  {
    var key := MakeCacheKey(text, source, target);
    var i := IndexOf(es, key);
    forall k ensures Lookup(Touched(es, key), k) == Lookup(es, k) {
      TouchedKeepsContents(es, key, k);
    }
  }

  /** Without an exact hit, only a short non-partial request can be served
      by the fuzzy lookup; every other hit-free path reports a miss. */
  lemma FuzzyOnlyForShortFinal(es: seq<Entry>, cap: nat, ids: seq<string>, ens: seq<string>, text: string,
                               source: string, target: string, isPartial: bool, model: Model, clock: Clock)
    requires cap > 0 && (|text| >= 50 || isPartial)
    requires Lookup(es, MakeCacheKey(text, source, target)).None? || Lookup(es, MakeCacheKey(text, source, target)) == Some("")
    ensures !Translate(es, cap, ids, ens, text, source, target, isPartial, model, clock).metrics.cacheHit
  {
    if source != target && !IsBlank(text) {
      var key := MakeCacheKey(text, source, target);
      var touched := Touched(es, key);
      assert Translate(es, cap, ids, ens, text, source, target, isPartial, model, clock)
          == Resolve(touched, cap, ids, ens, key, text, source, target, isPartial, model, clock);
      ResolveWithoutFuzzy(touched, cap, ids, ens, key, text, source, target, isPartial, model, clock);
    }
  }

  /** A long or partial request goes straight to the model. */
  lemma ResolveWithoutFuzzy(es: seq<Entry>, cap: nat, ids: seq<string>, ens: seq<string>, key: string, text: string,
                            source: string, target: string, isPartial: bool, model: Model, clock: Clock)
    requires cap > 0 && (|text| >= 50 || isPartial)
    ensures Resolve(es, cap, ids, ens, key, text, source, target, isPartial, model, clock)
         == Generate(es, cap, key, text, source, target, isPartial, model, clock)
    ensures !Generate(es, cap, key, text, source, target, isPartial, model, clock).metrics.cacheHit
  {
  }

  /** A failing model call yields the original text, unless the answer came
      from the cache. */
  lemma FailureReturnsOriginal(es: seq<Entry>, cap: nat, ids: seq<string>, ens: seq<string>, text: string,
                               source: string, target: string, isPartial: bool, model: Model, clock: Clock)
    requires cap > 0 && model(CleanText(text), source, target).None?
    ensures var r := Translate(es, cap, ids, ens, text, source, target, isPartial, model, clock);
      r.metrics.cacheHit || r.text == text
  {
  }

  lemma FuzzyKeepsCacheValid(es: seq<Entry>, cap: nat, ids: seq<string>, ens: seq<string>, text: string, source: string, target: string)
    requires DistinctKeys(es) && |es| <= cap
    ensures var f := Fuzzy(es, ids, ens, text, source, target);
      DistinctKeys(f.1) && |f.1| == |es| && (forall k :: Lookup(f.1, k) == Lookup(es, k))
  {
    var seeds := Corpus(ids, ens, source);
    var best := BestOf(text, seeds);
    if best.Some? {
      var key := MakeCacheKey(seeds[best.value], source, target);
      forall k ensures Lookup(Touched(es, key), k) == Lookup(es, k) {
        TouchedKeepsContents(es, key, k);
      }
    }
  }

  lemma GenerateKeepsCacheValid(es: seq<Entry>, cap: nat, key: string, text: string, source: string, target: string,
                                isPartial: bool, model: Model, clock: Clock)
    requires cap > 0 && DistinctKeys(es) && |es| <= cap
    ensures var r := Generate(es, cap, key, text, source, target, isPartial, model, clock);
      DistinctKeys(r.entries) && |r.entries| <= cap
  {
    var out := model(CleanText(text), source, target);
    if out.Some? {
      StoredDistinct(es, key, out.value, cap);
    }
  }

  lemma ResolveKeepsCacheValid(es: seq<Entry>, cap: nat, ids: seq<string>, ens: seq<string>, key: string, text: string,
                               source: string, target: string, isPartial: bool, model: Model, clock: Clock)
    requires cap > 0 && DistinctKeys(es) && |es| <= cap
    ensures var r := Resolve(es, cap, ids, ens, key, text, source, target, isPartial, model, clock);
      DistinctKeys(r.entries) && |r.entries| <= cap
  {
    FuzzyKeepsCacheValid(es, cap, ids, ens, text, source, target);
    var fuzzy := if |text| < 50 && !isPartial then Fuzzy(es, ids, ens, text, source, target) else (None, es);
    if fuzzy.0.Some? {
      StoredDistinct(fuzzy.1, key, fuzzy.0.value, cap);
    }
    GenerateKeepsCacheValid(fuzzy.1, cap, key, text, source, target, isPartial, model, clock);
  }

  /** Every call keeps the cache within capacity with distinct keys. */
  lemma TranslateKeepsCacheValid(es: seq<Entry>, cap: nat, ids: seq<string>, ens: seq<string>, text: string,
                                 source: string, target: string, isPartial: bool, model: Model, clock: Clock)
    requires cap > 0 && DistinctKeys(es) && |es| <= cap
    ensures var r := Translate(es, cap, ids, ens, text, source, target, isPartial, model, clock);
      DistinctKeys(r.entries) && |r.entries| <= cap
  {
    if source != target && !IsBlank(text) {
      var key := MakeCacheKey(text, source, target);
      TouchedKeepsContents(es, key, key);
      ResolveKeepsCacheValid(Touched(es, key), cap, ids, ens, key, text, source, target, isPartial, model, clock);
    }
  }

  /** A partial request never changes what the cache holds, only the
      recency order. */
  lemma PartialKeepsContents(es: seq<Entry>, cap: nat, ids: seq<string>, ens: seq<string>, text: string,
                             source: string, target: string, model: Model, clock: Clock)
    requires cap > 0 && DistinctKeys(es)
    ensures var r := Translate(es, cap, ids, ens, text, source, target, true, model, clock);
      |r.entries| == |es| && forall k :: Lookup(r.entries, k) == Lookup(es, k)
  {
    PartialOnlyTouches(es, cap, ids, ens, text, source, target, model, clock);
    if source != target && !IsBlank(text) {
      var key := MakeCacheKey(text, source, target);
      forall k ensures Lookup(Touched(es, key), k) == Lookup(es, k) {
        TouchedKeepsContents(es, key, k);
      }
      TouchedKeepsContents(es, key, key);
    }
  }

  /** A partial request at most moves its own key to the end. */
  lemma PartialOnlyTouches(es: seq<Entry>, cap: nat, ids: seq<string>, ens: seq<string>, text: string,
                           source: string, target: string, model: Model, clock: Clock)
    requires cap > 0
    ensures Translate(es, cap, ids, ens, text, source, target, true, model, clock).entries
         == if source == target || IsBlank(text) then es else Touched(es, MakeCacheKey(text, source, target))
  {
    if source != target && !IsBlank(text) {
      var key := MakeCacheKey(text, source, target);
      ResolveWithoutFuzzy(Touched(es, key), cap, ids, ens, key, text, source, target, true, model, clock);
    }
  }

  lemma GenerateAnswerCached(es: seq<Entry>, cap: nat, key: string, text: string, source: string, target: string,
                             model: Model, clock: Clock)
    requires cap > 0 && DistinctKeys(es) && |es| <= cap
    ensures var r := Generate(es, cap, key, text, source, target, false, model, clock);
      || Lookup(r.entries, key) == Some(r.text)
      || (model(CleanText(text), source, target).None? && r.text == text && !r.metrics.cacheHit)
  {
    var out := model(CleanText(text), source, target);
    if out.Some? {
      StoredSpec(es, key, out.value, cap, key);
    }
  }

  lemma ResolveAnswerCached(es: seq<Entry>, cap: nat, ids: seq<string>, ens: seq<string>, key: string, text: string,
                            source: string, target: string, model: Model, clock: Clock)
    requires cap > 0 && DistinctKeys(es) && |es| <= cap
    ensures var r := Resolve(es, cap, ids, ens, key, text, source, target, false, model, clock);
      || Lookup(r.entries, key) == Some(r.text)
      || (model(CleanText(text), source, target).None? && r.text == text && !r.metrics.cacheHit)
  {
    FuzzyKeepsCacheValid(es, cap, ids, ens, text, source, target);
    var fuzzy := if |text| < 50 then Fuzzy(es, ids, ens, text, source, target) else (None, es);
    if fuzzy.0.Some? {
      StoredSpec(fuzzy.1, key, fuzzy.0.value, cap, key);
    }
    GenerateAnswerCached(fuzzy.1, cap, key, text, source, target, model, clock);
  }

  /** After a non-partial request for a real translation, the answer is
      cached under the query's own key, whichever path produced it, unless
      the model call failed and the original text came back. */
  lemma AnswerCachedUnderQueryKey(es: seq<Entry>, cap: nat, ids: seq<string>, ens: seq<string>, text: string,
                                  source: string, target: string, model: Model, clock: Clock)
    requires cap > 0 && DistinctKeys(es) && |es| <= cap && source != target && !IsBlank(text)
    ensures var r := Translate(es, cap, ids, ens, text, source, target, false, model, clock);
      || Lookup(r.entries, MakeCacheKey(text, source, target)) == Some(r.text)
      || (model(CleanText(text), source, target).None? && r.text == text && !r.metrics.cacheHit)
  {
    var key := MakeCacheKey(text, source, target);
    TouchedKeepsContents(es, key, key);
    ResolveAnswerCached(Touched(es, key), cap, ids, ens, key, text, source, target, model, clock);
  }

  /** On the freshly seeded cache, every seed sentence is served from the
      cache with its partner as the answer, in both directions. */
  lemma SeededPairsServed(ids: seq<string>, ens: seq<string>, cap: nat, i: nat, isPartial: bool, model: Model, clock: Clock)
    requires |ids| == |ens| && Separable(ids) && Separable(ens) && cap >= 2 * |ids| && cap > 0 && i < |ids|
    ensures var r := Translate(SeedEntries(ids, ens), cap, ids, ens, ids[i], "id", "en", isPartial, model, clock);
      r.text == ens[i] && r.metrics.cacheHit
    ensures var r := Translate(SeedEntries(ids, ens), cap, ids, ens, ens[i], "en", "id", isPartial, model, clock);
      r.text == ids[i] && r.metrics.cacheHit
  {
    var es := SeedEntries(ids, ens);
    SeedsAllCached(ids, ens, cap);
    assert Trimmed(ids[i]) && Trimmed(ens[i]);
    assert !IsBlank(ids[i]) && !IsBlank(ens[i]);
    assert Lookup(es, MakeCacheKey(ids[i], "id", "en")) == Some(ens[i]);
    assert Lookup(es, MakeCacheKey(ens[i], "en", "id")) == Some(ids[i]);
    TranslateExactHit(es, cap, ids, ens, ids[i], "id", "en", isPartial, model, clock);
    TranslateExactHit(es, cap, ids, ens, ens[i], "en", "id", isPartial, model, clock);
  }

  /** A seed sentence in another letter case, with surrounding whitespace,
      is served from the seeded cache just the same. */
  lemma SeededVariantServed(ids: seq<string>, ens: seq<string>, cap: nat, i: nat, w1: string, t: string, w2: string,
                            isPartial: bool, model: Model, clock: Clock)
    requires |ids| == |ens| && Separable(ids) && Separable(ens) && cap >= 2 * |ids| && cap > 0 && i < |ids|
    requires AllSpace(w1) && AllSpace(w2) && SameUpToCase(t, ids[i])
    ensures var r := Translate(SeedEntries(ids, ens), cap, ids, ens, w1 + t + w2, "id", "en", isPartial, model, clock);
      r.text == ens[i] && r.metrics.cacheHit
  {
    VariantCached(ids, ens, cap, i, w1, t, w2);
    TranslateExactHit(SeedEntries(ids, ens), cap, ids, ens, w1 + t + w2, "id", "en", isPartial, model, clock);
  }

  /** The variant's key finds the seed's entry. */
  lemma VariantCached(ids: seq<string>, ens: seq<string>, cap: nat, i: nat, w1: string, t: string, w2: string)
    requires |ids| == |ens| && Separable(ids) && Separable(ens) && cap >= 2 * |ids| && cap > 0 && i < |ids|
    requires AllSpace(w1) && AllSpace(w2) && SameUpToCase(t, ids[i])
    ensures DistinctKeys(SeedEntries(ids, ens)) && !IsBlank(w1 + t + w2) && ens[i] != ""
    ensures Lookup(SeedEntries(ids, ens), MakeCacheKey(w1 + t + w2, "id", "en")) == Some(ens[i])
  {
    SeedsAllCached(ids, ens, cap);
    assert Trimmed(ens[i]);
    KeyIgnoresSurroundingSpace(w1, t, w2, "id", "en");
    KeyIgnoresCase(t, ids[i], "id", "en");
    VariantNotBlank(ids[i], w1, t, w2);
  }

  lemma VariantNotBlank(s: string, w1: string, t: string, w2: string)
    requires Trimmed(s) && SameUpToCase(t, s)
    ensures !IsBlank(w1 + t + w2)
  {
    assert LowerChar(t[0]) == LowerChar(s[0]);
    assert (w1 + t + w2)[|w1|] == t[0];
  }

  /** The first seed pair, served from the cache of a new engine. */
  lemma GreetingServed(ids: seq<string>, ens: seq<string>, cap: nat, model: Model, clock: Clock)
    requires ids == IdSeeds() && ens == EnSeeds() && cap >= 2 * SeedCount
    ensures ids[0] == "halo nama saya Fahdin"
    ensures var r := Translate(SeedEntries(ids, ens), cap, ids, ens, ids[0], "id", "en", false, model, clock);
      r.text == "hello my name is Fahdin" && r.metrics.cacheHit
  {
    SeedsSeparable(ids, ens);
    SeededPairsServed(ids, ens, cap, 0, false, model, clock);
  }

  // ------------------------------------------------------------ engine

  /** Two more puts at the end of a run. */
  lemma PutAllPair(es: seq<Entry>, done: seq<Entry>, x: Entry, y: Entry, cap: nat)
    requires cap > 0
    ensures PutAll(es, done + [x, y], cap) == Stored(Stored(PutAll(es, done, cap), x.key, x.value, cap), y.key, y.value, cap)
  {
    PutAllAppend(es, done, [x, y], cap);
    PutAllAppend(PutAll(es, done, cap), [x], [y], cap);
    assert [x] + [y] == [x, y];
    PutAllOne(PutAll(es, done, cap), x, cap);
    PutAllOne(Stored(PutAll(es, done, cap), x.key, x.value, cap), y, cap);
  }

  /** `TranslationEngine`: the cache and the seed corpus it is seeded from
      (`test_sentences`). The neural model is passed to each call. */
  class TranslationEngine {
    const cache: TranslationCache
    const idSentences: seq<string>
    const enSentences: seq<string>

    /** The seed corpus: paired, with keys that cannot collide. */
    ghost predicate Seeded() {
      |idSentences| == |enSentences| && Separable(idSentences) && Separable(enSentences)
    }

    ghost predicate Valid()
      reads this, cache
    {
      cache.Valid() && Seeded()
    }

    /** The engine as built: the fifteen seed pairs, and the cache that
        seeding an empty `cacheSize`-entry cache leaves, which with room
        for thirty entries is every seed entry. */
    ghost predicate Pristine(cacheSize: nat)
      reads this, cache
    {
      && idSentences == IdSeeds() && enSentences == EnSeeds() && cache.maxSize == cacheSize
      && cacheSize > 0 && |idSentences| == |enSentences|
      && cache.entries == PutAll([], SeedEntries(idSentences, enSentences), cacheSize)
      && (cacheSize >= 2 * SeedCount ==> cache.entries == SeedEntries(idSentences, enSentences))
    }

    /** Built with the fifteen seed pairs and a cache of `cacheSize`
        entries, then seeded; with room for thirty entries every pair is
        cached in both directions. */
    constructor (cacheSize: nat)
      requires cacheSize > 0
      ensures Valid() && fresh(cache) && cache.maxSize == cacheSize
      ensures idSentences == IdSeeds() && enSentences == EnSeeds()
      ensures cache.entries == PutAll([], SeedEntries(idSentences, enSentences), cacheSize)
      ensures cacheSize >= 2 * SeedCount ==> cache.entries == SeedEntries(idSentences, enSentences)
      ensures Pristine(cacheSize)
    {
      idSentences := IdSeeds();
      enSentences := EnSeeds();
      cache := new TranslationCache(cacheSize);
      new;
      SeedsSeparable(idSentences, enSentences);
      InitializeCache();
      if cacheSize >= 2 * SeedCount {
        SeedsAllCached(idSentences, enSentences, cacheSize);
      }
    }

    /** `_initialize_cache`: both directions of every pair, pair by pair. */
    method InitializeCache()
      requires Valid()
      modifies cache
      ensures Valid()
      ensures cache.entries == PutAll(old(cache.entries), SeedEntries(idSentences, enSentences), cache.maxSize)
    {
      ghost var start := cache.entries;
      ghost var done: seq<Entry> := [];
      var i := 0;
      while i < |idSentences|
        invariant 0 <= i <= |idSentences|
        invariant cache.Valid()
        invariant done == SeedPrefix(idSentences, enSentences, i)
        invariant cache.entries == PutAll(start, done, cache.maxSize)
      {
        var forward := Entry(MakeCacheKey(idSentences[i], "id", "en"), enSentences[i]);
        var backward := Entry(MakeCacheKey(enSentences[i], "en", "id"), idSentences[i]);
        PutAllPair(start, done, forward, backward, cache.maxSize);
        cache.Put(forward.key, forward.value);
        cache.Put(backward.key, backward.value);
        done := done + [forward, backward];
        i := i + 1;
      }
      SeedPrefixInterleaves(idSentences, enSentences, i);
    }

    /** `clear_cache`: empty, then seed again. */
    method ClearCache()
      requires Valid()
      modifies cache
      ensures Valid()
      ensures cache.entries == PutAll([], SeedEntries(idSentences, enSentences), cache.maxSize)
      ensures cache.maxSize >= 2 * |idSentences| ==> cache.entries == SeedEntries(idSentences, enSentences)
    {
      cache.Clear();
      InitializeCache();
      if cache.maxSize >= 2 * |idSentences| {
        SeedsAllCached(idSentences, enSentences, cache.maxSize);
      }
    }

    /** `_try_fuzzy_match`. */
    method TryFuzzyMatch(text: string, source: string, target: string) returns (r: Option<string>)
      requires Valid()
      modifies cache
      ensures Valid()
      ensures (r, cache.entries) == Fuzzy(old(cache.entries), idSentences, enSentences, text, source, target)
    {
      var seeds := if source == "id" then idSentences else if source == "en" then enSentences else [];
      var best := BestMatch(text, seeds);
      if best.Some? {
        r := cache.Get(MakeCacheKey(seeds[best.value], source, target));
      } else {
        r := None;
      }
    }

    /** `translate_text`: the reply text and its metrics. */
    method TranslateText(text: string, source: string, target: string, isPartial: bool, model: Model, clock: Clock)
      returns (reply: string, metrics: TranslationMetrics)
      requires Valid()
      modifies cache
      ensures Valid()
      ensures Translated(reply, metrics, cache.entries)
           == Translate(old(cache.entries), cache.maxSize, idSentences, enSentences, text, source, target, isPartial, model, clock)
    {
      if source == target {
        return text, Report(|text|, source, target, 0.0, 0.0, 0.0, false, clock);
      }
      if IsBlank(text) {
        return text, Report(0, source, target, 0.0, 0.0, 0.0, false, clock);
      }
      var key := MakeCacheKey(text, source, target);
      var cached := cache.Get(key);
      if cached.Some? && cached.value != "" {
        return cached.value, Report(|text|, source, target, 0.0, 0.0, clock.elapsedMs, true, clock);
      }
      reply, metrics := TranslateMiss(key, text, source, target, isPartial, model, clock);
    }

    /** The part of `translate_text` after an exact miss on `key`. */
    method TranslateMiss(key: string, text: string, source: string, target: string, isPartial: bool, model: Model, clock: Clock)
      returns (reply: string, metrics: TranslationMetrics)
      requires Valid()
      modifies cache
      ensures Valid()
      ensures Translated(reply, metrics, cache.entries)
           == Resolve(old(cache.entries), cache.maxSize, idSentences, enSentences, key, text, source, target, isPartial, model, clock)
    {
      ghost var es := cache.entries;
      if |text| < 50 && !isPartial {
        var fuzzy := TryFuzzyMatch(text, source, target);
        if fuzzy.Some? && fuzzy.value != "" {
          ResolveFuzzyHit(es, cache.maxSize, idSentences, enSentences, key, text, source, target, model, clock);
          cache.Put(key, fuzzy.value);
          return fuzzy.value, Report(|text|, source, target, 0.0, clock.elapsedMs * 0.8, clock.elapsedMs, true, clock);
        }
        ResolveFuzzyMiss(es, cache.maxSize, idSentences, enSentences, key, text, source, target, model, clock);
      }
      reply, metrics := TranslateWithModel(key, text, source, target, isPartial, model, clock);
    }

    /** The model path of `translate_text`. */
    method TranslateWithModel(key: string, text: string, source: string, target: string, isPartial: bool, model: Model, clock: Clock)
      returns (reply: string, metrics: TranslationMetrics)
      requires Valid()
      modifies cache
      ensures Valid()
      ensures Translated(reply, metrics, cache.entries)
           == Generate(old(cache.entries), cache.maxSize, key, text, source, target, isPartial, model, clock)
    {
      var processed := CleanText(text);
      var out := model(processed, source, target);
      if out.None? {
        return text, Report(|text|, source, target, 0.0, 0.0, clock.elapsedMs, false, clock);
      }
      if !isPartial {
        cache.Put(key, out.value);
      }
      return out.value, Report(|text|, source, target, clock.preprocessingMs, clock.translationMs, clock.elapsedMs, false, clock);
    }
  }
}
