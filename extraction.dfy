/**
 * Fenced-block extraction from a code-generation reply: the pattern
 * "```(?:python)?\s*(.*?)```" searched with DOTALL, its group trimmed, and the
 * whole reply trimmed when the pattern does not match.
 *
 * FindBlock is the direct scan the model uses; Search is an independent
 * reference that follows the regex engine's backtracking order, and
 * FindBlockIsSearch proves the two agree on every text.
 */
module Extraction {
  import opened Wrappers

  const Tick: char := '`'
  const Fence: string := "```"
  const Tag: string := "python"

  /** Python's whitespace: what both `\s` in a str pattern and str.strip() remove. */
  predicate IsSpace(c: char) {
    c == ' ' || c == '\t' || c == '\n' || c == '\r' || c == '\U{0B}' || c == '\U{0C}'
    || ('\U{1C}' <= c <= '\U{1F}') || c == '\U{85}' || c == '\U{A0}' || c == '\U{1680}'
    || ('\U{2000}' <= c <= '\U{200A}') || c == '\U{2028}' || c == '\U{2029}'
    || c == '\U{202F}' || c == '\U{205F}' || c == '\U{3000}'
  }

  predicate AllSpace(s: string) {
    forall j :: 0 <= j < |s| ==> IsSpace(s[j])
  }

  predicate NoTick(s: string) {
    forall j :: 0 <= j < |s| ==> s[j] != Tick
  }

  /** Neither end of `s` is whitespace: what str.strip() leaves. */
  predicate Trimmed(s: string) {
    s == [] || (!IsSpace(s[0]) && !IsSpace(s[|s| - 1]))
  }

  /** A triple backtick starts at position j. */
  predicate FenceAt(s: string, j: nat) {
    j + 3 <= |s| && s[j] == Tick && s[j + 1] == Tick && s[j + 2] == Tick
  }

  /** The first fence at or after position i. */
  function FenceFrom(s: string, i: nat): (r: Option<nat>)
    requires i <= |s|
    ensures r.Some? ==> i <= r.value && FenceAt(s, r.value)
    ensures forall j :: i <= j && (r.None? || j < r.value) ==> !FenceAt(s, j)
    decreases |s| - i
  {
    if i + 3 > |s| then None
    else if FenceAt(s, i) then Some(i)
    else FenceFrom(s, i + 1)
  }

  /** Past the optional `python` tag that starts at position k. */
  function AfterTag(s: string, k: nat): (r: nat)
    requires k <= |s|
    ensures r <= |s|
    ensures r == k || (r == k + 6 && s[k..r] == Tag)
    ensures forall j :: k <= j < r ==> s[j] != Tick
  {
    if k + 6 <= |s| && s[k..k + 6] == Tag then
      assert forall j :: k <= j < k + 6 ==> s[j] == Tag[j - k];
      k + 6
    else k
  }

  /** Past the longest run of whitespace that starts at position k. */
  function SkipSpace(s: string, k: nat): (w: nat)
    requires k <= |s|
    ensures k <= w <= |s|
    ensures forall j :: k <= j < w ==> IsSpace(s[j])
    ensures w < |s| ==> !IsSpace(s[w])
    decreases |s| - k
  {
    if k < |s| && IsSpace(s[k]) then SkipSpace(s, k + 1) else k
  }

  /** The end of `s` once trailing whitespace after position a is dropped. */
  function TrailEnd(s: string, a: nat, b: nat): (e: nat)
    requires a <= b <= |s|
    requires forall j :: b <= j < |s| ==> IsSpace(s[j])
    ensures a <= e <= b
    ensures forall j :: e <= j < |s| ==> IsSpace(s[j])
    ensures e > a ==> !IsSpace(s[e - 1])
    decreases b
  {
    if b == a || !IsSpace(s[b - 1]) then b else TrailEnd(s, a, b - 1)
  }

  /** Python's str.strip(). */
  function Strip(s: string): (r: string)
    ensures Trimmed(r)
    ensures exists a, b :: 0 <= a <= b <= |s| && r == s[a..b] && AllSpace(s[..a]) && AllSpace(s[b..])
  {
    var a := SkipSpace(s, 0);
    var b := TrailEnd(s, a, |s|);
    assert a < b ==> !IsSpace(s[a]);
    assert AllSpace(s[..a]) && AllSpace(s[b..]);
    s[a..b]
  }

  /** The span of the regex group: from after tag and whitespace up to the closing fence. */
  datatype Block = Block(start: nat, end: nat)

  /** The group that follows an opening fence ending at position j, if a closing fence follows. */
  function GroupAfter(s: string, j: nat): (r: Option<Block>)
    requires j <= |s|
    ensures r.Some? ==> j <= r.value.start <= r.value.end <= |s|
    ensures r.Some? ==> forall k :: r.value.start <= k < r.value.end ==> !FenceAt(s, k)
    ensures r.Some? ==> FenceAt(s, r.value.end)
  {
    var w := SkipSpace(s, AfterTag(s, j));
    match FenceFrom(s, w)
    case None => None
    case Some(e) => Some(Block(w, e))
  }

  /** The group of the first opening fence, which decides the whole search. */
  function FindBlock(s: string): (r: Option<Block>)
    ensures r.Some? ==> r.value.start <= r.value.end <= |s|
    ensures r.Some? ==> forall k :: r.value.start <= k < r.value.end ==> !FenceAt(s, k)
  {
    match FenceFrom(s, 0)
    case None => None
    case Some(i) => GroupAfter(s, i + 3)
  }

  /** extract_code: the trimmed group of the first fenced block, else the whole text trimmed. */
  function Extract(text: string): (r: string)
    ensures Trimmed(r)
  {
    match FindBlock(text)
    case Some(b) => Strip(text[b.start..b.end])
    case None => Strip(text)
  }

  // ---------------------------------------------------------------------
  // Reference: the regex engine's backtracking order

  /** `\s*` gives back one character at a time: try a group starting at w, then w-1, ..., down to k. */
  function TrySpaces(s: string, k: nat, w: nat): Option<Block>
    requires k <= w <= |s|
    decreases w
  {
    match FenceFrom(s, w)
    case Some(e) => Some(Block(w, e))
    case None => if w == k then None else TrySpaces(s, k, w - 1)
  }

  /** `(?:python)?` is greedy: the tagged alternative first, then the untagged one. */
  function TryAfterFence(s: string, j: nat): Option<Block>
    requires j <= |s|
  {
    var tagged :=
      if j + 6 <= |s| && s[j..j + 6] == Tag then TrySpaces(s, j + 6, SkipSpace(s, j + 6)) else None;
    if tagged.Some? then tagged else TrySpaces(s, j, SkipSpace(s, j))
  }

  function MatchAt(s: string, i: nat): Option<Block>
    requires i <= |s|
  {
    if FenceAt(s, i) then TryAfterFence(s, i + 3) else None
  }

  /** re.search: the match at the leftmost start position where one exists. */
  function Search(s: string, i: nat): Option<Block>
    requires i <= |s|
    decreases |s| - i
  {
    match MatchAt(s, i)
    case Some(b) => Some(b)
    case None => if i == |s| then None else Search(s, i + 1)
  }

  // ---------------------------------------------------------------------
  // The direct scan agrees with the regex search

  /** Text without backticks cannot hold the start of a fence. */
  lemma {:induction false} FenceFromSkip(s: string, a: nat, b: nat)
    requires a <= b <= |s|
    requires forall j :: a <= j < b ==> s[j] != Tick
    ensures FenceFrom(s, a) == FenceFrom(s, b)
    decreases b - a
  {
    if a < b && a + 3 <= |s| {
      FenceFromSkip(s, a + 1, b);
    }
  }

  /** Giving back whitespace never helps: no fence can start inside it. */
  lemma {:induction false} TrySpacesFails(s: string, k: nat, w: nat)
    requires k <= w <= |s|
    requires forall j :: k <= j < w ==> IsSpace(s[j])
    requires FenceFrom(s, w).None?
    ensures TrySpaces(s, k, w).None?
    decreases w
  {
    if w > k {
      FenceFromSkip(s, w - 1, w);
      TrySpacesFails(s, k, w - 1);
    }
  }

  /** Backtracking over the tag and the whitespace finds exactly the greedy group. */
  lemma TryAfterFenceIsGroup(s: string, j: nat)
    requires j <= |s|
    ensures TryAfterFence(s, j) == GroupAfter(s, j)
  {
    var w := SkipSpace(s, AfterTag(s, j));
    if j + 6 <= |s| && s[j..j + 6] == Tag {
      assert s[j] == 'p';
      assert SkipSpace(s, j) == j;
      if FenceFrom(s, w).None? {
        TrySpacesFails(s, j + 6, w);
        FenceFromSkip(s, j, w);
      }
    } else if FenceFrom(s, w).None? {
      TrySpacesFails(s, j, w);
    }
  }

  lemma {:induction false} SearchSkips(s: string, a: nat, b: nat)
    requires a <= b <= |s|
    requires forall j :: a <= j < b ==> !FenceAt(s, j)
    ensures Search(s, a) == Search(s, b)
    decreases b - a
  {
    if a < b {
      SearchSkips(s, a + 1, b);
    }
  }

  lemma {:induction false} SearchFails(s: string, a: nat)
    requires a <= |s|
    requires forall j :: a <= j <= |s| ==> MatchAt(s, j).None?
    ensures Search(s, a).None?
    decreases |s| - a
  {
    if a < |s| {
      SearchFails(s, a + 1);
    }
  }

  /** When the first fence has no closing fence after it, no later fence has one either. */
  lemma NoLaterMatch(s: string, i0: nat, i: nat)
    requires i0 < i <= |s|
    requires FenceAt(s, i0) && GroupAfter(s, i0 + 3).None?
    ensures MatchAt(s, i).None?
  {
    var w0 := SkipSpace(s, AfterTag(s, i0 + 3));
    assert forall j :: i0 + 3 <= j < w0 ==> s[j] != Tick;
    if FenceAt(s, i) {
      assert i < w0;
      assert i < i0 + 3;
      TryAfterFenceIsGroup(s, i + 3);
    }
  }

  /** The direct scan is the leftmost regex match. */
  lemma FindBlockIsSearch(s: string)
    ensures FindBlock(s) == Search(s, 0)
  {
    match FenceFrom(s, 0)
    case None =>
      SearchSkips(s, 0, |s|);
    case Some(i0) =>
      SearchSkips(s, 0, i0);
      TryAfterFenceIsGroup(s, i0 + 3);
      if GroupAfter(s, i0 + 3).None? {
        forall j | i0 + 1 <= j <= |s| ensures MatchAt(s, j).None? {
          NoLaterMatch(s, i0, j);
        }
        SearchFails(s, i0 + 1);
      }
  }

  /** extract_code returns the trimmed group of re.search's match, or the trimmed text when there is none. */
  lemma ExtractFollowsSearch(text: string)
    ensures Search(text, 0).None? ==> Extract(text) == Strip(text)
    ensures Search(text, 0).Some? ==>
      var b := Search(text, 0).value;
      b.start <= b.end <= |text| && Extract(text) == Strip(text[b.start..b.end])
  {
    FindBlockIsSearch(text);
  }

  // ---------------------------------------------------------------------
  // Properties of the result

  /** strip() gives back exactly the trimmed core of a text padded with whitespace. */
  lemma StripPadded(p: string, r: string, q: string)
    requires AllSpace(p) && AllSpace(q) && Trimmed(r)
    ensures Strip(p + r + q) == r
  {
    var s := p + r + q;
    var a := SkipSpace(s, 0);
    var b := TrailEnd(s, a, |s|);
    assert forall m :: 0 <= m < |p| ==> s[m] == p[m];
    assert forall m :: |p| + |r| <= m < |s| ==> s[m] == q[m - |p| - |r|];
    if r == [] {
      assert a == |s|;
    } else {
      assert s[|p|] == r[0] && s[|p| + |r| - 1] == r[|r| - 1];
      assert a == |p|;
      assert b == |p| + |r|;
      assert s[a..b] == r;
    }
  }

  lemma StripTrimmed(r: string)
    requires Trimmed(r)
    ensures Strip(r) == r
  {
    StripPadded([], r, []);
    assert [] + r + [] == r;
  }

  /** A slice of a stretch that starts no fence holds no fence. */
  lemma FenceFreeSlice(s: string, lo: nat, hi: nat)
    requires lo <= hi <= |s|
    requires forall k :: lo <= k < hi ==> !FenceAt(s, k)
    ensures forall j :: !FenceAt(s[lo..hi], j)
  {
    forall j: nat ensures !FenceAt(s[lo..hi], j) {
      if j + 3 <= hi - lo {
        assert s[lo..hi][j] == s[lo + j] && s[lo..hi][j + 1] == s[lo + j + 1] && s[lo..hi][j + 2] == s[lo + j + 2];
        assert !FenceAt(s, lo + j);
      }
    }
  }

  /** A found block has no fence in it, so the result contains no triple backtick. */
  lemma ExtractedBlockHasNoFence(text: string)
    requires FindBlock(text).Some?
    ensures forall j :: !FenceAt(Extract(text), j)
  {
    var blk := FindBlock(text).value;
    var lo, hi := ExtractedSlice(text);
    FenceFreeSlice(text, lo, hi);
  }

  /** The code taken from a found block is a stretch of the block. */
  lemma ExtractedSlice(text: string) returns (lo: nat, hi: nat)
    requires FindBlock(text).Some?
    ensures FindBlock(text).value.start <= lo <= hi <= FindBlock(text).value.end
    ensures Extract(text) == text[lo..hi]
  {
    var blk := FindBlock(text).value;
    var g := text[blk.start..blk.end];
    var a := SkipSpace(g, 0);
    var b := TrailEnd(g, a, |g|);
    assert Extract(text) == g[a..b];
    SliceOfSlice(text, blk.start, blk.end, a, b);
    lo, hi := blk.start + a, blk.start + b;
  }

  lemma SliceOfSlice(s: string, lo: nat, hi: nat, a: nat, b: nat)
    requires lo <= hi <= |s| && a <= b <= hi - lo
    ensures s[lo..hi][a..b] == s[lo + a..lo + b]
  {
    assert forall i :: 0 <= i < b - a ==> s[lo..hi][a..b][i] == s[lo + a + i];
  }

  /** When a block was found, extracting again changes nothing. */
  lemma ExtractIdempotent(text: string)
    requires FindBlock(text).Some?
    ensures Extract(Extract(text)) == Extract(text)
  {
    var r := Extract(text);
    ExtractedBlockHasNoFence(text);
    assert FenceFrom(r, 0).None?;
    StripTrimmed(r);
  }

  /** An empty reply yields empty code. */
  lemma ExtractEmpty()
    ensures Extract("") == ""
  {
  }

  /**
   * A reply of prose without backticks, an opening fence with an optional
   * `python` tag, whitespace, trimmed code without backticks, whitespace, a
   * closing fence and anything after it yields exactly the code: the tag and
   * the whitespace are not part of the result. Without a tag and whitespace,
   * code that itself starts with `python` would lose those six letters, so
   * that case is excluded.
   */
  lemma ExtractFencedBlock(pre: string, tag: string, ws: string, code: string, ws2: string, post: string)
    requires NoTick(pre) && NoTick(code)
    requires tag == "" || tag == Tag
    requires AllSpace(ws) && AllSpace(ws2) && Trimmed(code)
    requires tag == "" && ws == "" && |code| >= 6 ==> code[..6] != Tag
    ensures Extract(pre + Fence + tag + ws + code + ws2 + Fence + post) == code
  {
    Layout(pre, tag, ws, code, ws2, post);
    ExtractLaidOut(pre + Fence + tag + ws + code + ws2 + Fence + post, |pre|, tag, ws, code, ws2);
  }

  lemma ExtractLaidOut(s: string, i: nat, tag: string, ws: string, code: string, ws2: string)
    requires NoTick(code)
    requires tag == "" || tag == Tag
    requires AllSpace(ws) && AllSpace(ws2) && Trimmed(code)
    requires tag == "" && ws == "" && |code| >= 6 ==> code[..6] != Tag
    requires var j := i + 3;
      var k := j + |tag|;
      var w := k + |ws|;
      var e := w + |code|;
      var c := e + |ws2|;
      && c + 3 <= |s|
      && (forall m :: 0 <= m < i ==> s[m] != Tick)
      && s[i] == Tick && s[i + 1] == Tick && s[i + 2] == Tick
      && (forall m :: j <= m < k ==> s[m] == tag[m - j])
      && (forall m :: k <= m < w ==> s[m] == ws[m - k])
      && (forall m :: w <= m < e ==> s[m] == code[m - w])
      && (forall m :: e <= m < c ==> s[m] == ws2[m - e])
      && s[c] == Tick && s[c + 1] == Tick && s[c + 2] == Tick
    ensures Extract(s) == code
  {
    var j := i + 3;
    var k := j + |tag|;
    var w := k + |ws|;
    var c := w + |code| + |ws2|;
    FenceFromSkip(s, 0, i);
    assert FenceAt(s, i);
    TagPart(s, j, tag, ws, code, ws2);
    assert forall m :: k <= m < w ==> IsSpace(s[m]);
    if code == [] {
      LaidOutEmpty(s, i, k, c);
    } else {
      LaidOutCode(s, i, k, w, code, ws2);
    }
  }

  /** Only whitespace between the opening and closing fence: the group is empty. */
  lemma LaidOutEmpty(s: string, i: nat, k: nat, c: nat)
    requires i + 3 <= k <= c && c + 3 <= |s|
    requires FenceFrom(s, 0) == Some(i) && AfterTag(s, i + 3) == k
    requires forall m :: k <= m < c ==> IsSpace(s[m])
    requires FenceAt(s, c)
    ensures Extract(s) == ""
  {
    GroupFound(s, k, c, c);
    assert s[c..c] == [];
    StripTrimmed([]);
    ExtractFromBlock(s, Block(c, c), "");
  }

  /** Whitespace, non-empty trimmed code, whitespace, then the closing fence: the code is extracted. */
  lemma LaidOutCode(s: string, i: nat, k: nat, w: nat, code: string, ws2: string)
    requires code != [] && Trimmed(code) && NoTick(code) && AllSpace(ws2)
    requires i + 3 <= k <= w && w + |code| + |ws2| + 3 <= |s|
    requires FenceFrom(s, 0) == Some(i) && AfterTag(s, i + 3) == k
    requires forall m :: k <= m < w ==> IsSpace(s[m])
    requires forall m :: w <= m < w + |code| ==> s[m] == code[m - w]
    requires forall m :: w + |code| <= m < w + |code| + |ws2| ==> s[m] == ws2[m - w - |code|]
    requires FenceAt(s, w + |code| + |ws2|)
    ensures Extract(s) == code
  {
    var c := w + |code| + |ws2|;
    assert s[w] == code[0];
    assert forall m :: w <= m < c ==> s[m] != Tick;
    GroupFound(s, k, w, c);
    assert FindBlock(s) == Some(Block(w, c));
    ExtractCodeBlock(s, w, code, ws2);
  }


  lemma ExtractCodeBlock(s: string, w: nat, code: string, ws2: string)
    requires w + |code| + |ws2| <= |s|
    requires FindBlock(s) == Some(Block(w, w + |code| + |ws2|))
    requires forall m :: w <= m < w + |code| ==> s[m] == code[m - w]
    requires forall m :: w + |code| <= m < w + |code| + |ws2| ==> s[m] == ws2[m - w - |code|]
    requires AllSpace(ws2) && Trimmed(code)
    ensures Extract(s) == code
  {
    GroupIsCode(s, w, code, ws2);
    StripTrailing(code, ws2);
    ExtractFromBlock(s, Block(w, w + |code| + |ws2|), code);
  }

  lemma StripTrailing(code: string, ws2: string)
    requires AllSpace(ws2) && Trimmed(code)
    ensures Strip(code + ws2) == code
  {
    StripPadded([], code, ws2);
    assert [] + code + ws2 == code + ws2;
  }

  lemma GroupFound(s: string, k: nat, w: nat, c: nat)
    requires k <= w <= c && c + 3 <= |s|
    requires forall m :: k <= m < w ==> IsSpace(s[m])
    requires !IsSpace(s[w])
    requires forall m :: w <= m < c ==> s[m] != Tick
    requires FenceAt(s, c)
    ensures SkipSpace(s, k) == w && FenceFrom(s, w) == Some(c)
  {
    SkipSpaceStops(s, k, w);
    FenceFromSkip(s, w, c);
  }

  lemma ExtractFromBlock(s: string, blk: Block, r: string)
    requires FindBlock(s) == Some(blk) && blk.start <= blk.end <= |s|
    requires Strip(s[blk.start..blk.end]) == r
    ensures Extract(s) == r
  {
  }

  /** Where each part of a fenced reply sits. */
  lemma Layout(pre: string, tag: string, ws: string, code: string, ws2: string, post: string)
    ensures var s := pre + Fence + tag + ws + code + ws2 + Fence + post;
      var j := |pre| + 3;
      var k := j + |tag|;
      var w := k + |ws|;
      var e := w + |code|;
      var c := e + |ws2|;
      && c + 3 <= |s|
      && (forall m :: 0 <= m < |pre| ==> s[m] == pre[m])
      && (NoTick(pre) ==> forall m :: 0 <= m < |pre| ==> s[m] != Tick)
      && s[|pre|] == Tick && s[|pre| + 1] == Tick && s[|pre| + 2] == Tick
      && (forall m :: j <= m < k ==> s[m] == tag[m - j])
      && (forall m :: k <= m < w ==> s[m] == ws[m - k])
      && (forall m :: w <= m < e ==> s[m] == code[m - w])
      && (forall m :: e <= m < c ==> s[m] == ws2[m - e])
      && s[c] == Tick && s[c + 1] == Tick && s[c + 2] == Tick
  {
  }

  /** The optional tag is consumed exactly when it is there. */
  lemma TagPart(s: string, j: nat, tag: string, ws: string, code: string, ws2: string)
    requires tag == "" || tag == Tag
    requires AllSpace(ws) && AllSpace(ws2) && Trimmed(code) && NoTick(code)
    requires tag == "" && ws == "" && |code| >= 6 ==> code[..6] != Tag
    requires j + |tag| + |ws| + |code| + |ws2| + 3 <= |s|
    requires forall m :: j <= m < j + |tag| ==> s[m] == tag[m - j]
    requires forall m :: j + |tag| <= m < j + |tag| + |ws| ==> s[m] == ws[m - j - |tag|]
    requires forall m :: j + |tag| + |ws| <= m < j + |tag| + |ws| + |code| ==> s[m] == code[m - j - |tag| - |ws|]
    requires forall m :: j + |tag| + |ws| + |code| <= m < j + |tag| + |ws| + |code| + |ws2| ==>
      s[m] == ws2[m - j - |tag| - |ws| - |code|]
    requires s[j + |tag| + |ws| + |code| + |ws2|] == Tick
    ensures AfterTag(s, j) == j + |tag|
  {
    if tag == Tag {
      assert s[j..j + 6] == Tag;
    } else if j + 6 <= |s| {
      TagLetters();
      var n: nat;
      if ws != "" {
        n := 0;
        assert s[j + n] == ws[0];
      } else if |code| >= 6 {
        assert exists n' :: 0 <= n' < 6 && code[n'] != Tag[n'];
        n :| 0 <= n < 6 && code[n] != Tag[n];
        assert s[j + n] == code[n];
      } else {
        n := |code|;
        assert s[j + n] == Tick || s[j + n] == ws2[0];
      }
      assert s[j + n] != Tag[n];
      assert s[j..j + 6][n] == s[j + n];
    }
  }

  lemma TagLetters()
    ensures forall n :: 0 <= n < |Tag| ==> !IsSpace(Tag[n]) && Tag[n] != Tick
  {
  }

  lemma GroupIsCode(s: string, w: nat, code: string, ws2: string)
    requires w + |code| + |ws2| <= |s|
    requires forall m :: w <= m < w + |code| ==> s[m] == code[m - w]
    requires forall m :: w + |code| <= m < w + |code| + |ws2| ==> s[m] == ws2[m - w - |code|]
    ensures s[w..w + |code| + |ws2|] == code + ws2
  {
  }

  lemma SkipSpaceStops(s: string, k: nat, w: nat)
    requires k <= w < |s|
    requires forall m :: k <= m < w ==> IsSpace(s[m])
    requires !IsSpace(s[w])
    ensures SkipSpace(s, k) == w
  {
  }

  /** A `python3` tag is only half consumed: its `3` starts the extracted code. */
  lemma VersionedTagLeaksIntoCode()
    ensures Extract("```python3\nx = 1\n```") == "3\nx = 1"
  {
    assert "```python3\nx = 1\n```" == "" + Fence + Tag + "" + "3\nx = 1" + "\n" + Fence + "";
    ExtractFencedBlock("", Tag, "", "3\nx = 1", "\n", "");
  }
}
