/** Small helpers: the priority buckets, list chunking, text sanitising and the
    API response envelope. */
module Utils {
  import opened Wrappers
  import opened PyStr
  import opened Models
  import opened Constants

  // ---------------------------------------------------------------------------
  // determine_priority

  function DeterminePriority(biasScore: real): (p: Priority)
    ensures p == HIGH <==> biasScore >= BIAS_SCORE_HIGH_THRESHOLD
    ensures p == MEDIUM <==> BIAS_SCORE_MEDIUM_THRESHOLD <= biasScore < BIAS_SCORE_HIGH_THRESHOLD
    ensures p == LOW <==> biasScore < BIAS_SCORE_MEDIUM_THRESHOLD
  {
    if biasScore >= BIAS_SCORE_HIGH_THRESHOLD then HIGH
    else if biasScore >= BIAS_SCORE_MEDIUM_THRESHOLD then MEDIUM
    else LOW
  }

  function PriorityRank(p: Priority): nat {
    match p
    case LOW => 0
    case MEDIUM => 1
    case HIGH => 2
  }

  /** A higher score never yields a lower priority. */
  lemma PriorityMonotone(a: real, b: real)
    requires a <= b
    ensures PriorityRank(DeterminePriority(a)) <= PriorityRank(DeterminePriority(b))
  {
  }

  // ---------------------------------------------------------------------------
  // chunk_list

  /** `len(range(0, n, k))` for a positive step: the number of chunk starts below `n`. */
  function NumChunks(n: nat, k: nat): nat
    requires k > 0
    decreases n
  {
    if n == 0 then 0 else 1 + NumChunks(n - Min(k, n), k)
  }

  lemma {:induction false} ChunkStartInRange(i: nat, n: nat, k: nat)
    requires k > 0 && i < NumChunks(n, k)
    ensures i * k < n
    decreases n
  {
    if i > 0 {
      if n <= k {
        assert false;
      } else {
        ChunkStartInRange(i - 1, n - k, k);
        assert (i - 1) * k + k == i * k;
      }
    }
  }

  /** `[lst[i:i + k] for i in range(0, len(lst), k)]` for a positive `k`. */
  function Chunks<T>(lst: seq<T>, k: nat): (r: seq<seq<T>>)
    requires k > 0
    ensures |r| == NumChunks(|lst|, k)
  {
    seq(NumChunks(|lst|, k), i requires 0 <= i < NumChunks(|lst|, k) => Chunk(lst, k, i))
  }

  /** `lst[i * k : i * k + k]`, the chunk that starts at the `i`-th step of the range. */
  function Chunk<T>(lst: seq<T>, k: nat, i: nat): seq<T>
    requires k > 0 && i < NumChunks(|lst|, k)
  {
    ChunkStartInRange(i, |lst|, k);
    lst[i * k .. Min(i * k + k, |lst|)]
  }

  /** `chunk_list`: a zero size makes `range` raise; a negative one yields no chunks. */
  function ChunkList<T>(lst: seq<T>, chunkSize: int): (r: Result<seq<seq<T>>>)
    ensures r.Failure? <==> chunkSize == 0
    ensures chunkSize < 0 ==> r == Success([])
    ensures chunkSize > 0 ==> r == Success(Chunks(lst, chunkSize))
  {
    if chunkSize == 0 then Failure(["chunk_size"])
    else if chunkSize < 0 || |lst| == 0 then Success([])
    else Success(Chunks(lst, chunkSize))
  }

  function Flatten<T>(chunks: seq<seq<T>>): seq<T> {
    if chunks == [] then [] else chunks[0] + Flatten(chunks[1..])
  }

  /** Every chunk is non-empty and at most `k` long; all but the last are exactly `k` long. */
  lemma ChunkSizes<T>(lst: seq<T>, k: nat)
    requires k > 0
    ensures forall i :: 0 <= i < |Chunks(lst, k)| ==> 1 <= |Chunks(lst, k)[i]| <= k
    ensures forall i :: 0 <= i < |Chunks(lst, k)| - 1 ==> |Chunks(lst, k)[i]| == k
  {
    var r := Chunks(lst, k);
    forall i | 0 <= i < |r| ensures 1 <= |r[i]| <= k && (i < |r| - 1 ==> |r[i]| == k) {
      ChunkStartInRange(i, |lst|, k);
      if i < |r| - 1 {
        ChunkStartInRange(i + 1, |lst|, k);
        assert (i + 1) * k == i * k + k;
      }
    }
  }

  /** Chunk `i` starts at `i * k` and is at most `k` long. */
  lemma ChunkAt<T>(lst: seq<T>, k: nat, i: nat)
    requires k > 0 && i < NumChunks(|lst|, k)
    ensures i * k < |lst| && Chunks(lst, k)[i] == lst[i * k .. Min(i * k + k, |lst|)]
  {
    ChunkStartInRange(i, |lst|, k);
    assert Chunks(lst, k)[i] == Chunk(lst, k, i);
  }

  lemma ChunkCountStep(n: nat, k: nat)
    requires k > 0 && n > k
    ensures NumChunks(n, k) == 1 + NumChunks(n - k, k)
  {
  }

  lemma ChunkEndStep(n: nat, k: nat, i: nat)
    requires k > 0 && n > k
    ensures (i + 1) * k == i * k + k
    ensures Min((i + 1) * k + k, n) == Min(i * k + k, n - k) + k
  {
    assert (i + 1) * k == i * k + k;
  }

  lemma SliceOfDrop<T>(lst: seq<T>, k: nat, lo: nat, hi: nat)
    requires k <= |lst| && lo <= hi <= |lst| - k
    ensures lst[k..][lo .. hi] == lst[lo + k .. hi + k]
  {
  }

  lemma ChunkOfDrop<T>(lst: seq<T>, k: nat, i: nat)
    requires k > 0 && |lst| > k && i < NumChunks(|lst| - k, k)
    ensures i * k + k < |lst|
    ensures Chunks(lst[k..], k)[i] == lst[i * k + k .. Min(i * k + k, |lst| - k) + k]
  {
    var rest := lst[k..];
    var lo := i * k;
    var hi := Min(lo + k, |rest|);
    ChunkAt(rest, k, i);
    assert Chunks(rest, k)[i] == rest[lo .. hi];
    SliceOfDrop(lst, k, lo, hi);
  }

  lemma NextChunk<T>(lst: seq<T>, k: nat, i: nat)
    requires k > 0 && |lst| > k && i + 1 < NumChunks(|lst|, k)
    ensures i * k + k < |lst|
    ensures Chunks(lst, k)[i + 1] == lst[i * k + k .. Min(i * k + k, |lst| - k) + k]
  {
    var lo := i * k;
    ChunkEndStep(|lst|, k, i);
    ChunkAt(lst, k, i + 1);
    assert (i + 1) * k == lo + k;
  }

  /** Chunk `i + 1` of a list is chunk `i` of the list without its first `k` elements. */
  lemma ChunkShift<T>(lst: seq<T>, k: nat, i: nat)
    requires k > 0 && |lst| > k && i + 1 < NumChunks(|lst|, k)
    ensures NumChunks(|lst| - k, k) == NumChunks(|lst|, k) - 1
    ensures Chunks(lst, k)[i + 1] == Chunks(lst[k..], k)[i]
  {
    ChunkCountStep(|lst|, k);
    NextChunk(lst, k, i);
    ChunkOfDrop(lst, k, i);
  }

  /** Peeling off the first chunk leaves the chunks of the rest. */
  lemma ChunksUnfold<T>(lst: seq<T>, k: nat)
    requires k > 0 && |lst| > 0
    ensures Chunks(lst, k) == [lst[..Min(k, |lst|)]] + Chunks(lst[Min(k, |lst|)..], k)
  {
    var n := |lst|;
    var r := Chunks(lst, k);
    ChunkStartInRange(0, n, k);
    if n <= k {
      assert NumChunks(n - Min(k, n), k) == 0;
      assert lst[Min(k, n)..] == [];
    } else {
      var t := Chunks(lst[k..], k);
      assert |t| == |r| - 1;
      forall i | 0 <= i < |t| ensures r[i + 1] == t[i] {
        ChunkShift(lst, k, i);
      }
      assert r == [r[0]] + t;
    }
  }

  /** Concatenating the chunks gives back the list. */
  lemma {:induction false} FlattenChunks<T>(lst: seq<T>, k: nat)
    requires k > 0
    ensures Flatten(Chunks(lst, k)) == lst
    decreases |lst|
  {
    if |lst| == 0 {
      assert NumChunks(0, k) == 0;
    } else {
      var m := Min(k, |lst|);
      ChunksUnfold(lst, k);
      FlattenChunks(lst[m..], k);
      assert lst == lst[..m] + lst[m..];
    }
  }

  // ---------------------------------------------------------------------------
  // sanitize_text

  /** The ASCII part of the regex class `\w`. */
  predicate IsWordChar(c: char) {
    ('a' <= c <= 'z') || ('A' <= c <= 'Z') || ('0' <= c <= '9') || c == '_'
  }

  /** The characters `sanitize_text` keeps besides word characters and whitespace. */
  predicate IsKeptPunctuation(c: char) {
    c == '.' || c == ',' || c == '!' || c == '?' || c == '-'
  }

  /** A character the pattern `[^\w\s.,!?-]` does not match. */
  predicate IsAllowed(c: char) {
    IsWordChar(c) || IsSpace(c) || IsKeptPunctuation(c)
  }

  /** The only whitespace character in `s` is the plain space. */
  predicate BlankSpaces(s: string) {
    forall i :: 0 <= i < |s| ==> (IsSpace(s[i]) ==> s[i] == ' ')
  }

  /** `re.sub(r'\s+', ' ', text)` */
  function CollapseWhitespace(s: string): (r: string)
    ensures |r| <= |s|
    ensures BlankSpaces(r)
    ensures r != [] ==> (IsSpace(r[0]) <==> IsSpace(s[0]))
    decreases |s|
  {
    if s == [] then []
    else if IsSpace(s[0]) then
      var rest := LStrip(s);
      assert |rest| < |s|;
      [' '] + CollapseWhitespace(rest)
    else
      [s[0]] + CollapseWhitespace(s[1..])
  }

  /** `re.sub(r'[^\w\s.,!?-]', '', text)` */
  function RemoveSpecial(s: string): (r: string)
    ensures |r| <= |s|
    ensures forall i :: 0 <= i < |r| ==> IsWordChar(r[i]) || IsSpace(r[i]) || IsKeptPunctuation(r[i])
    ensures BlankSpaces(s) ==> BlankSpaces(r)
  {
    if s == [] then []
    else if IsAllowed(s[0]) then [s[0]] + RemoveSpecial(s[1..])
    else RemoveSpecial(s[1..])
  }

  /** `sanitize_text`: collapse whitespace runs, drop special characters, strip. */
  function SanitizeText(text: string): (r: string)
    ensures |r| <= |text|
    ensures r != [] ==> !IsSpace(r[0]) && !IsSpace(r[|r| - 1])
    ensures forall i :: 0 <= i < |r| ==> r[i] == ' ' || IsWordChar(r[i]) || IsKeptPunctuation(r[i])
  {
    var collapsed := CollapseWhitespace(text);
    var kept := RemoveSpecial(collapsed);
    var r := Strip(kept);
    forall i | 0 <= i < |r| ensures r[i] == ' ' || IsWordChar(r[i]) || IsKeptPunctuation(r[i]) {
      assert r[i] == kept[StripStart(kept) + i];
    }
    r
  }

  /** Removing a character can bring two spaces together, so the result of
      sanitising may still hold a run of spaces: "a @ b" becomes "a  b". */
  lemma SanitizeCanLeaveDoubleSpace(a: char, b: char)
    requires IsWordChar(a) && IsWordChar(b)
    ensures SanitizeText([a, ' ', '@', ' ', b]) == [a, ' ', ' ', b]
    ensures !Collapsed(SanitizeText([a, ' ', '@', ' ', b]))
  {
    var once := [a, ' ', ' ', b];
    CollapseKeepsSingleSpaces(a, b);
    RemoveSpecialDropsAt(a, b);
    StripKeeps(once);
    SanitizeSteps([a, ' ', '@', ' ', b]);
    assert IsSpace(once[1]) && IsSpace(once[2]);
  }

  lemma SanitizeSteps(text: string)
    ensures SanitizeText(text) == Strip(RemoveSpecial(CollapseWhitespace(text)))
  {
  }

  /** Text whose only whitespace is single spaces. */
  predicate Collapsed(s: string) {
    forall i :: 0 <= i < |s| && IsSpace(s[i]) ==> s[i] == ' ' && (i + 1 < |s| ==> !IsSpace(s[i + 1]))
  }

  /** Collapsing whitespace changes nothing in text without whitespace runs. */
  lemma {:induction false} CollapseCollapsed(s: string)
    requires Collapsed(s)
    ensures CollapseWhitespace(s) == s
    decreases |s|
  {
    if s != [] {
      assert Collapsed(s[1..]);
      CollapseCollapsed(s[1..]);
      if IsSpace(s[0]) {
        assert LStrip(s) == s[1..];
      }
    }
  }

  /** Collapsing leaves no whitespace but single spaces. */
  lemma {:induction false} CollapseResultCollapsed(s: string)
    ensures Collapsed(CollapseWhitespace(s))
    decreases |s|
  {
    if s != [] {
      if IsSpace(s[0]) {
        CollapseResultCollapsed(LStrip(s));
      } else {
        CollapseResultCollapsed(s[1..]);
      }
    }
  }

  /** Collapsing whitespace twice is the same as collapsing it once. */
  lemma CollapseIdempotent(s: string)
    ensures CollapseWhitespace(CollapseWhitespace(s)) == CollapseWhitespace(s)
  {
    CollapseResultCollapsed(s);
    CollapseCollapsed(CollapseWhitespace(s));
  }

  lemma CollapseKeepsSingleSpaces(a: char, b: char)
    requires IsWordChar(a) && IsWordChar(b)
    ensures CollapseWhitespace([a, ' ', '@', ' ', b]) == [a, ' ', '@', ' ', b]
  {
    CollapseCollapsed([a, ' ', '@', ' ', b]);
  }

  lemma RemoveSpecialCons(c: char, s: string)
    ensures RemoveSpecial([c] + s) ==
      if IsWordChar(c) || IsSpace(c) || IsKeptPunctuation(c) then [c] + RemoveSpecial(s) else RemoveSpecial(s)
  {
    assert ([c] + s)[0] == c && ([c] + s)[1..] == s;
  }

  /** A word character and a space survive `RemoveSpecial`. */
  lemma RemoveSpecialKeeps(a: char, b: char)
    requires IsWordChar(a) && IsWordChar(b)
    ensures RemoveSpecial([' ', b]) == [' ', b]
    ensures RemoveSpecial([a, ' ', b]) == [a, ' ', b]
  {
    RemoveSpecialCons(b, []);
    assert [b] + [] == [b];
    RemoveSpecialCons(' ', [b]);
    assert [' '] + [b] == [' ', b];
    RemoveSpecialCons(a, [' ', b]);
    assert [a] + [' ', b] == [a, ' ', b];
  }

  lemma RemoveSpecialDropsAt(a: char, b: char)
    requires IsWordChar(a) && IsWordChar(b)
    ensures RemoveSpecial([a, ' ', '@', ' ', b]) == [a, ' ', ' ', b]
  {
    RemoveSpecialKeeps(a, b);
    RemoveSpecialCons('@', [' ', b]);
    assert ['@'] + [' ', b] == ['@', ' ', b];
    RemoveSpecialCons(' ', ['@', ' ', b]);
    assert [' '] + ['@', ' ', b] == [' ', '@', ' ', b];
    RemoveSpecialCons(a, [' ', '@', ' ', b]);
    assert [a] + [' ', '@', ' ', b] == [a, ' ', '@', ' ', b];
    assert [a] + ([' '] + [' ', b]) == [a, ' ', ' ', b];
  }

  /** Text that starts and ends with a non-space is its own strip. */
  lemma StripKeeps(s: string)
    requires s != [] && !IsSpace(s[0]) && !IsSpace(s[|s| - 1])
    ensures Strip(s) == s
  {
    assert LStrip(s) == s;
    assert RStrip(s) == s;
  }

  // ---------------------------------------------------------------------------
  // What sanitising keeps

  /** The text with every whitespace character removed. */
  function DropSpaces(s: string): string {
    if s == [] then [] else (if IsSpace(s[0]) then [] else [s[0]]) + DropSpaces(s[1..])
  }

  lemma {:induction false} DropSpacesAppend(s: string, t: string)
    ensures DropSpaces(s + t) == DropSpaces(s) + DropSpaces(t)
  {
    if s != [] {
      var head := if IsSpace(s[0]) then [] else [s[0]];
      assert (s + t)[0] == s[0] && (s + t)[1..] == s[1..] + t;
      DropSpacesAppend(s[1..], t);
      assert DropSpaces(s + t) == head + (DropSpaces(s[1..]) + DropSpaces(t));
    } else {
      assert s + t == t;
    }
  }

  lemma {:induction false} DropSpacesOfSpaces(s: string)
    requires forall i :: 0 <= i < |s| ==> IsSpace(s[i])
    ensures DropSpaces(s) == []
  {
    if s != [] {
      DropSpacesOfSpaces(s[1..]);
    }
  }

  lemma {:induction false} DropSpacesLStrip(s: string)
    ensures DropSpaces(LStrip(s)) == DropSpaces(s)
  {
    if s != [] && IsSpace(s[0]) {
      DropSpacesLStrip(s[1..]);
    }
  }

  lemma {:induction false} DropSpacesRStrip(s: string)
    ensures DropSpaces(RStrip(s)) == DropSpaces(s)
    decreases |s|
  {
    if s != [] && IsSpace(s[|s| - 1]) {
      var init := s[..|s| - 1];
      DropSpacesRStrip(init);
      assert s == init + [s[|s| - 1]];
      DropSpacesAppend(init, [s[|s| - 1]]);
      assert DropSpaces([s[|s| - 1]]) == [];
    }
  }

  /** Stripping removes whitespace only. */
  lemma DropSpacesStrip(s: string)
    ensures DropSpaces(Strip(s)) == DropSpaces(s)
  {
    assert Strip(s) == RStrip(LStrip(s));
    DropSpacesRStrip(LStrip(s));
    DropSpacesLStrip(s);
  }

  /** Collapsing whitespace keeps every other character, in order. */
  lemma {:induction false} CollapseKeepsText(s: string)
    ensures DropSpaces(CollapseWhitespace(s)) == DropSpaces(s)
    decreases |s|
  {
    if s != [] {
      if IsSpace(s[0]) {
        var rest := LStrip(s);
        CollapseKeepsText(rest);
        DropSpacesAppend([' '], CollapseWhitespace(rest));
        DropSpacesLStrip(s);
      } else {
        CollapseKeepsText(s[1..]);
        DropSpacesAppend([s[0]], CollapseWhitespace(s[1..]));
      }
    }
  }

  /** `LStrip` stops at the first non-whitespace character, wherever the text goes on. */
  lemma {:induction false} LStripAppend(u: string, x: string)
    requires exists i :: 0 <= i < |u| && !IsSpace(u[i])
    ensures LStrip(u + x) == LStrip(u) + x
  {
    if IsSpace(u[0]) {
      assert (u + x)[1..] == u[1..] + x;
      var i :| 0 <= i < |u| && !IsSpace(u[i]);
      assert u[1..][i - 1] == u[i];
      LStripAppend(u[1..], x);
    }
  }

  /** A whitespace run in front of non-whitespace is stripped whole. */
  lemma {:induction false} LStripRun(w: string, v: string)
    requires forall i :: 0 <= i < |w| ==> IsSpace(w[i])
    requires v == [] || !IsSpace(v[0])
    ensures LStrip(w + v) == v
  {
    if w != [] {
      assert (w + v)[1..] == w[1..] + v;
      LStripRun(w[1..], v);
    }
  }

  lemma {:induction false} LStripKeepsLast(u: string)
    requires u != [] && !IsSpace(u[|u| - 1])
    ensures LStrip(u) != [] && LStrip(u)[|LStrip(u)| - 1] == u[|u| - 1]
  {
    if IsSpace(u[0]) {
      assert u[1..][|u| - 2] == u[|u| - 1];
      LStripKeepsLast(u[1..]);
    }
  }

  lemma ConcatAssoc(a: string, b: string, c: string)
    ensures a + (b + c) == (a + b) + c
  {
  }

  /** Text that ends in a non-whitespace character collapses independently of what follows. */
  lemma {:induction false} CollapseAppend(u: string, x: string)
    requires u == [] || !IsSpace(u[|u| - 1])
    ensures CollapseWhitespace(u + x) == CollapseWhitespace(u) + CollapseWhitespace(x)
    decreases |u|
  {
    if u == [] {
      assert u + x == x;
    } else if IsSpace(u[0]) {
      var rest := LStrip(u);
      assert |rest| < |u| by {
        assert rest == LStrip(u[1..]);
      }
      assert CollapseWhitespace(u + x) == [' '] + CollapseWhitespace(rest + x) by {
        assert (u + x)[0] == u[0];
        LStripAppend(u, x);
      }
      assert CollapseWhitespace(u) == [' '] + CollapseWhitespace(rest);
      LStripKeepsLast(u);
      CollapseAppend(rest, x);
      ConcatAssoc([' '], CollapseWhitespace(rest), CollapseWhitespace(x));
    } else {
      assert CollapseWhitespace(u + x) == [u[0]] + CollapseWhitespace(u[1..] + x) by {
        assert (u + x)[0] == u[0] && (u + x)[1..] == u[1..] + x;
      }
      assert CollapseWhitespace(u) == [u[0]] + CollapseWhitespace(u[1..]);
      CollapseAppend(u[1..], x);
      ConcatAssoc([u[0]], CollapseWhitespace(u[1..]), CollapseWhitespace(x));
    }
  }

  /** A leading whitespace run becomes one space. */
  lemma CollapseLeadingRun(w: string, v: string)
    requires w != [] && forall i :: 0 <= i < |w| ==> IsSpace(w[i])
    requires v == [] || !IsSpace(v[0])
    ensures CollapseWhitespace(w + v) == [' '] + CollapseWhitespace(v)
  {
    assert (w + v)[0] == w[0];
    LStripRun(w, v);
  }

  /** A whitespace run between two non-whitespace characters becomes exactly one space. */
  lemma CollapseRun(u: string, w: string, v: string)
    requires u == [] || !IsSpace(u[|u| - 1])
    requires w != [] && forall i :: 0 <= i < |w| ==> IsSpace(w[i])
    requires v == [] || !IsSpace(v[0])
    ensures CollapseWhitespace(u + w + v) == CollapseWhitespace(u) + [' '] + CollapseWhitespace(v)
  {
    ConcatAssoc(u, w, v);
    CollapseAppend(u, w + v);
    CollapseLeadingRun(w, v);
    ConcatAssoc(CollapseWhitespace(u), [' '], CollapseWhitespace(v));
  }

  lemma {:induction false} RemoveSpecialAppend(s: string, t: string)
    ensures RemoveSpecial(s + t) == RemoveSpecial(s) + RemoveSpecial(t)
  {
    if s != [] {
      var head := if IsAllowed(s[0]) then [s[0]] else [];
      assert (s + t)[0] == s[0] && (s + t)[1..] == s[1..] + t;
      RemoveSpecialAppend(s[1..], t);
      assert RemoveSpecial(s + t) == head + (RemoveSpecial(s[1..]) + RemoveSpecial(t));
    } else {
      assert s + t == t;
    }
  }

  /** Text made only of allowed characters passes `RemoveSpecial` unchanged. */
  lemma {:induction false} RemoveSpecialKeepsAllowed(s: string)
    requires forall i :: 0 <= i < |s| ==> IsAllowed(s[i])
    ensures RemoveSpecial(s) == s
  {
    if s != [] {
      assert forall i :: 0 <= i < |s[1..]| ==> IsAllowed(s[1..][i]) by {
        forall i | 0 <= i < |s[1..]| ensures IsAllowed(s[1..][i]) {
          assert s[1..][i] == s[i + 1];
        }
      }
      RemoveSpecialKeepsAllowed(s[1..]);
      assert s == [s[0]] + s[1..];
    }
  }

  /** `RemoveSpecial` is a character filter: it keeps exactly the allowed characters. */
  lemma RemoveSpecialFilter(c: char, s: string, t: string)
    ensures RemoveSpecial(s + t) == RemoveSpecial(s) + RemoveSpecial(t)
    ensures RemoveSpecial([c]) == if IsAllowed(c) then [c] else []
  {
    RemoveSpecialAppend(s, t);
    assert [c][1..] == [];
  }

  lemma {:induction false} DropSpacesRemoveSpecial(s: string)
    ensures DropSpaces(RemoveSpecial(s)) == RemoveSpecial(DropSpaces(s))
  {
    if s != [] {
      DropSpacesRemoveSpecial(s[1..]);
      var head := if IsSpace(s[0]) then [] else [s[0]];
      RemoveSpecialAppend(head, DropSpaces(s[1..]));
      if IsAllowed(s[0]) {
        DropSpacesAppend([s[0]], RemoveSpecial(s[1..]));
      }
    }
  }

  /** Sanitising loses no content: the non-whitespace characters of the result are
      the allowed non-whitespace characters of the input, in order. */
  lemma SanitizeKeepsText(text: string)
    ensures DropSpaces(SanitizeText(text)) == RemoveSpecial(DropSpaces(text))
  {
    var collapsed := CollapseWhitespace(text);
    SanitizeSteps(text);
    DropSpacesStrip(RemoveSpecial(collapsed));
    DropSpacesRemoveSpecial(collapsed);
    CollapseKeepsText(text);
  }

  /** Text that is already clean comes back unchanged. */
  lemma SanitizeClean(s: string)
    requires Collapsed(s)
    requires s != [] ==> !IsSpace(s[0]) && !IsSpace(s[|s| - 1])
    requires forall i :: 0 <= i < |s| ==> IsAllowed(s[i])
    ensures SanitizeText(s) == s
  {
    CollapseCollapsed(s);
    RemoveSpecialKeepsAllowed(s);
    SanitizeSteps(s);
    if s != [] {
      StripKeeps(s);
    }
  }

  // ---------------------------------------------------------------------------
  // format_api_response

  /** A value in the response body: the success flag, the data or the error. */
  datatype BodyValue<D, E> = Flag(success: bool) | Data(data: D) | Error(error: E)

  datatype ApiResponse<D, E> = ApiResponse(statusCode: int, headers: map<string, string>, body: map<string, BodyValue<D, E>>)

  const CorsHeaders: map<string, string> := map[
    "Content-Type" := "application/json",
    "Access-Control-Allow-Origin" := "*",
    "Access-Control-Allow-Headers" := "Content-Type",
    "Access-Control-Allow-Methods" := "GET, POST, OPTIONS"]

  method FormatApiResponse<D, E>(success: bool, data: Option<D>, error: Option<E>, statusCode: int)
    returns (r: ApiResponse<D, E>)
    ensures r.statusCode == statusCode && r.headers == CorsHeaders
    ensures "success" in r.body && r.body["success"] == Flag(success)
    ensures "data" in r.body <==> data.Some?
    ensures data.Some? ==> r.body["data"] == Data(data.value)
    ensures "error" in r.body <==> error.Some?
    ensures error.Some? ==> r.body["error"] == Error(error.value)
    ensures r.body.Keys <= {"success", "data", "error"}
  {
    var response: map<string, BodyValue<D, E>> := map["success" := Flag(success)];
    if data.Some? {
      response := response["data" := Data(data.value)];
    }
    if error.Some? {
      response := response["error" := Error(error.value)];
    }
    r := ApiResponse(statusCode, CorsHeaders, response);
  }
}
