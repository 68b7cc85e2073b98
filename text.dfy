/** The string operations of Rust's `str` that the scaffolder relies on,
    over `seq<char>`: `find`, `contains`, `rfind` with a `char` pattern,
    and `replace`. Rust indexes strings by byte; every index used here is
    at an ASCII character ('.'), where byte and character slicing agree. */
module Text {
  import opened Wrappers

  /** `pat` occurs in `text` starting at index `i`. */
  predicate OccursAt(text: string, pat: string, i: nat)
  {
    i + |pat| <= |text| && text[i..i + |pat|] == pat
  }

  /** Dropping `m` leading characters shifts every occurrence by `m`. */
  lemma {:induction false} OccursAtDrop(text: string, pat: string, m: nat, k: nat)
    requires m <= |text|
    ensures OccursAt(text[m..], pat, k) <==> OccursAt(text, pat, m + k)
  {
    if m + k + |pat| <= |text| {
      assert text[m..][k..k + |pat|] == text[m + k..m + k + |pat|];
    }
  }

  /** An occurrence in `b` is an occurrence in `a + b`, shifted by `|a|`. */
  lemma {:induction false} OccursAtAppend(a: string, b: string, pat: string, k: nat)
    requires OccursAt(b, pat, k)
    ensures OccursAt(a + b, pat, |a| + k)
  {
    assert (a + b)[|a| + k..|a| + k + |pat|] == b[k..k + |pat|];
  }

  /** Rust's `str::find` with a string pattern: the leftmost index at which
      `pat` occurs (an empty pattern is found at 0); see `FindLeftmost`. */
  function Find(text: string, pat: string): (r: Option<nat>)
    ensures r.Some? ==> r.value + |pat| <= |text|
    decreases |text|
  {
    if OccursAt(text, pat, 0) then Some(0)
    else if text == [] then None
    else
      match Find(text[1..], pat)
      case Some(i) => Some(i + 1)
      case None => None
  }

  /** `find` returns an occurrence, the first one, and fails exactly when
      there is none. */
  lemma {:induction false} FindLeftmost(text: string, pat: string)
    ensures Find(text, pat).Some? ==> OccursAt(text, pat, Find(text, pat).value)
    ensures Find(text, pat).Some? ==> forall j: nat :: j < Find(text, pat).value ==> !OccursAt(text, pat, j)
    ensures Find(text, pat).None? <==> forall j: nat :: !OccursAt(text, pat, j)
    decreases |text|
  {
    if !OccursAt(text, pat, 0) && text != [] {
      FindLeftmost(text[1..], pat);
      forall j: nat | 1 <= j ensures OccursAt(text, pat, j) <==> OccursAt(text[1..], pat, j - 1) {
        OccursAtDrop(text, pat, 1, j - 1);
      }
    }
  }

  /** Rust's `str::contains` with a string pattern: `find` succeeds
      exactly when some occurrence exists (see `Find`'s contract). */
  predicate Contains(text: string, pat: string)
  {
    exists k: nat | k <= |text| :: OccursAt(text, pat, k)
  }

  /** Rust's `str::rfind` with a `char` pattern: the index of the last `c`. */
  function RFind(s: string, c: char): (r: Option<nat>)
    ensures r.None? <==> c !in s
    ensures r.Some? ==> r.value < |s| && s[r.value] == c && c !in s[r.value + 1..]
    decreases |s|
  {
    if s == [] then None
    else if s[|s| - 1] == c then Some(|s| - 1)
    else
      assert s == s[..|s| - 1] + [s[|s| - 1]];
      RFind(s[..|s| - 1], c)
  }

  /** `s` cut at its last `c`: the part before it and the part after it.
      `None` when `s` holds no `c` (where the source's `unwrap` panics). */
  function SplitLast(s: string, c: char): (r: Option<(string, string)>)
    ensures r.None? <==> c !in s
    ensures r.Some? ==> s == r.value.0 + [c] + r.value.1 && c !in r.value.1
  {
    match RFind(s, c)
    case None => None
    case Some(i) =>
      assert s == s[..i] + [c] + s[i + 1..];
      Some((s[..i], s[i + 1..]))
  }

  /** The cut is unique: any way of writing `s` as `p + [c] + q` with no `c`
      in `q` is the one `SplitLast` finds. */
  lemma {:induction false} SplitLastUnique(s: string, c: char, p: string, q: string)
    requires s == p + [c] + q && c !in q
    ensures SplitLast(s, c) == Some((p, q))
  {
    var i := RFind(s, c).value;
    assert s[|p|] == c;
    assert forall k :: |p| < k < |s| ==> s[k] == q[k - |p| - 1];
    assert i == |p|;
    assert s[..i] == p && s[i + 1..] == q;
  }

  /** Rust's `str::replace`: every non-overlapping occurrence of `from`,
      scanning left to right, is replaced by `to`. An empty `from` matches
      at every character boundary, both ends included. */
  function ReplaceAll(text: string, from: string, to: string): string
  {
    if from == [] then InsertAtBoundaries(text, to) else ReplaceMatches(text, from, to)
  }

  /** `replace` with an empty pattern: `to` before every character and once
      more at the end. */
  function InsertAtBoundaries(text: string, to: string): string
    decreases |text|
  {
    if text == [] then to else to + text[..1] + InsertAtBoundaries(text[1..], to)
  }

  /** `replace` with a non-empty pattern: a match at the front is replaced
      and skipped, otherwise the first character is copied. */
  function ReplaceMatches(text: string, from: string, to: string): string
    requires from != []
    decreases |text|
  {
    if OccursAt(text, from, 0) then to + ReplaceMatches(text[|from|..], from, to)
    else if text == [] then []
    else text[..1] + ReplaceMatches(text[1..], from, to)
  }

  /** A reference definition of `replace` as repeated leftmost `find`:
      copy up to the first match, emit `to`, continue after the match. */
  function ReplaceByFind(text: string, from: string, to: string): string
    requires from != []
    decreases |text|
  {
    match Find(text, from)
    case None => text
    case Some(i) => text[..i] + to + ReplaceByFind(text[i + |from|..], from, to)
  }

  /** The scanning definition and the find-based reference agree. */
  lemma {:induction false} ReplaceAllIsReplaceByFind(text: string, from: string, to: string)
    requires from != []
    ensures ReplaceAll(text, from, to) == ReplaceByFind(text, from, to)
    decreases |text|
  {
    match Find(text, from)
    case None =>
      ReplaceAllNoFind(text, from, to);
    case Some(i) =>
      var rest := text[i + |from|..];
      ReplaceAllFirstMatch(text, from, to, i);
      ReplaceAllIsReplaceByFind(rest, from, to);
      ReplaceByFindStep(text, from, to, i, ReplaceAll(rest, from, to));
  }

  /** One step of the find-based reference, given the rest of the result. */
  lemma {:induction false} ReplaceByFindStep(text: string, from: string, to: string, i: nat, tail: string)
    requires from != [] && Find(text, from) == Some(i)
    requires tail == ReplaceByFind(text[i + |from|..], from, to)
    ensures ReplaceByFind(text, from, to) == text[..i] + to + tail
  {
  }

  /** With no match, `replace` copies the text. */
  lemma {:induction false} ReplaceAllNoFind(text: string, from: string, to: string)
    requires from != [] && Find(text, from).None?
    ensures ReplaceAll(text, from, to) == text
    decreases |text|
  {
    if text != [] {
      assert !OccursAt(text, from, 0);
      assert Find(text[1..], from).None?;
      ReplaceAllNoFind(text[1..], from, to);
      AtFindCopyAll(text, from, to);
    }
  }

  /** `replace` copies the text up to the first match found by `find`,
      emits `to`, and goes on after the match. */
  lemma {:induction false} ReplaceAllFirstMatch(text: string, from: string, to: string, i: nat)
    requires from != [] && Find(text, from) == Some(i)
    ensures i + |from| <= |text|
    ensures ReplaceAll(text, from, to) == text[..i] + to + ReplaceAll(text[i + |from|..], from, to)
    decreases |text|
  {
    if OccursAt(text, from, 0) {
      AtFindMatchHere(text, from, to, i);
    } else {
      FindPastHead(text, from, i);
      ReplaceAllFirstMatch(text[1..], from, to, i - 1);
      AtFindCopyHead(text, from, to, i);
    }
  }

  lemma {:induction false} FindPastHead(text: string, from: string, i: nat)
    requires Find(text, from) == Some(i) && !OccursAt(text, from, 0)
    ensures text != [] && 1 <= i && Find(text[1..], from) == Some(i - 1)
  {
  }

  lemma {:induction false} AtFindMatchHere(text: string, from: string, to: string, i: nat)
    requires from != [] && OccursAt(text, from, 0) && Find(text, from) == Some(i)
    ensures ReplaceAll(text, from, to) == text[..i] + to + ReplaceAll(text[i + |from|..], from, to)
  {
    assert i == 0;
    assert ReplaceAll(text, from, to) == to + ReplaceAll(text[|from|..], from, to);
    PrependEmpty(text[..0], to, ReplaceAll(text[|from|..], from, to));
  }

  lemma {:induction false} AtFindCopyAll(text: string, from: string, to: string)
    requires from != [] && text != [] && !OccursAt(text, from, 0)
    requires Find(text[1..], from).None? && ReplaceAll(text[1..], from, to) == text[1..]
    ensures Find(text, from).None? && ReplaceAll(text, from, to) == text
  {
    assert ReplaceAll(text, from, to) == text[..1] + ReplaceAll(text[1..], from, to);
    HeadAndTail(text, 0);
  }

  lemma {:induction false} AtFindCopyHead(text: string, from: string, to: string, i: nat)
    requires from != [] && text != [] && !OccursAt(text, from, 0) && 1 <= i
    requires Find(text[1..], from) == Some(i - 1) && i - 1 + |from| <= |text| - 1
    requires ReplaceAll(text[1..], from, to) == text[1..][..i - 1] + to + ReplaceAll(text[1..][i - 1 + |from|..], from, to)
    ensures ReplaceAll(text, from, to) == text[..i] + to + ReplaceAll(text[i + |from|..], from, to)
  {
    var tail := text[1..];
    assert ReplaceAll(text, from, to) == text[..1] + ReplaceAll(tail, from, to);
    HeadAndTail(text, i - 1);
    Regroup(text[..1], tail[..i - 1], to, ReplaceAll(tail[i - 1 + |from|..], from, to));
  }

  /** Slices of `text[1..]` are slices of `text` shifted by one. */
  lemma {:induction false} HeadAndTail(text: string, i: nat)
    requires i < |text|
    ensures text == text[..1] + text[1..]
    ensures text[..i + 1] == text[..1] + text[1..][..i]
    ensures forall k :: i <= k <= |text| - 1 ==> text[1..][k..] == text[k + 1..]
  {
  }

  /** Concatenation regrouped, for sequences whose contents are left unknown. */
  lemma {:induction false} Regroup(a: string, b: string, c: string, d: string)
    ensures a + (b + c + d) == (a + b) + c + d
  {
  }

  lemma {:induction false} PrependEmpty(a: string, b: string, c: string)
    requires a == []
    ensures a + b + c == b + c
  {
  }

  /** Text without any occurrence of a non-empty `from` comes back unchanged. */
  lemma {:induction false} ReplaceAllNoMatch(text: string, from: string, to: string)
    requires from != [] && !Contains(text, from)
    ensures ReplaceAll(text, from, to) == text
  {
    FindLeftmost(text, from);
    ReplaceAllNoFind(text, from, to);
  }

  /** Replacing a pattern by itself changes nothing. */
  lemma {:induction false} ReplaceAllIdentity(text: string, pat: string)
    ensures ReplaceAll(text, pat, pat) == text
    decreases |text|
  {
    if pat == [] {
      if text != [] {
        ReplaceAllIdentity(text[1..], pat);
        assert text == text[..1] + text[1..];
      }
    } else if OccursAt(text, pat, 0) {
      ReplaceAllIdentity(text[|pat|..], pat);
      assert text == text[..|pat|] + text[|pat|..];
    } else if text != [] {
      ReplaceAllIdentity(text[1..], pat);
      assert text == text[..1] + text[1..];
    }
  }

  /** With an empty pattern, `to` appears once per character boundary:
      before each character and once more at the end. */
  lemma {:induction false} ReplaceEmptyLength(text: string, to: string)
    ensures |ReplaceAll(text, [], to)| == |text| + (|text| + 1) * |to|
    decreases |text|
  {
    if text != [] {
      ReplaceEmptyLength(text[1..], to);
      assert (|text| + 1) * |to| == |to| + |text| * |to|;
      assert |text[1..]| + 1 == |text|;
    }
  }

  /** Block `i` of `r` cut into blocks of `width + 1` characters; empty
      when `r` is too short to hold it. */
  function BlockAt(r: string, i: nat, width: nat): string
  {
    if (i + 1) * (width + 1) <= |r| then r[i * (width + 1)..(i + 1) * (width + 1)] else []
  }

  /** With an empty pattern, block `i` of the result (`|to| + 1` characters
      wide) is `to` followed by `text[i]`. */
  lemma {:induction false} ReplaceEmptyBlocks(text: string, to: string)
    ensures forall i :: 0 <= i < |text| ==> BlockAt(ReplaceAll(text, [], to), i, |to|) == to + [text[i]]
    decreases |text|
  {
    if text != [] {
      ReplaceEmptyBlocks(text[1..], to);
      assert ReplaceAll(text, [], to) == to + [text[0]] + ReplaceAll(text[1..], [], to);
      BlocksAfterHead(to, text[0], text[1..], ReplaceAll(text[1..], [], to));
      assert [text[0]] + text[1..] == text;
    }
  }

  /** With an empty pattern, the result ends in `to`, right after the block
      of the last character. */
  lemma {:induction false} ReplaceEmptyEnd(text: string, to: string)
    ensures |text| * (|to| + 1) <= |ReplaceAll(text, [], to)|
    ensures ReplaceAll(text, [], to)[|text| * (|to| + 1)..] == to
    decreases |text|
  {
    if text != [] {
      var rest := ReplaceAll(text[1..], [], to);
      ReplaceEmptyEnd(text[1..], to);
      assert ReplaceAll(text, [], to) == (to + [text[0]]) + rest;
      Stride(|text[1..]|, |to| + 1);
      assert |text[1..]| + 1 == |text|;
      DropAfterHead(to + [text[0]], rest, |text[1..]| * (|to| + 1));
    }
  }

  /** Putting a block of the same width in front shifts every block by one. */
  lemma {:induction false} BlocksAfterHead(to: string, c: char, t: string, rest: string)
    requires forall i :: 0 <= i < |t| ==> BlockAt(rest, i, |to|) == to + [t[i]]
    ensures forall i :: 0 <= i < |t| + 1 ==> BlockAt(to + [c] + rest, i, |to|) == to + [([c] + t)[i]]
  {
    forall i | 0 <= i < |t| + 1 ensures BlockAt(to + [c] + rest, i, |to|) == to + [([c] + t)[i]] {
      if i == 0 {
        Stride(0, |to| + 1);
        assert (to + [c] + rest)[..|to| + 1] == to + [c];
      } else {
        BlockShift(to + [c], rest, i, |to|);
      }
    }
  }

  /** Blocks after a leading block of the same width shift down by one. */
  lemma {:induction false} BlockShift(head: string, r: string, i: nat, width: nat)
    requires |head| == width + 1 && 1 <= i
    ensures BlockAt(head + r, i, width) == BlockAt(r, i - 1, width)
  {
    Stride(i - 1, width + 1);
    Stride(i, width + 1);
  }

  /** One more stride of width `w`. */
  lemma {:induction false} Stride(n: nat, w: nat)
    ensures (n + 1) * w == w + n * w
  {
  }

  lemma {:induction false} DropAfterHead(head: string, rest: string, k: nat)
    requires k <= |rest|
    ensures (head + rest)[|head| + k..] == rest[k..]
  {
  }

  /** When `from` occurs, the replacement shows up in the result. */
  lemma {:induction false} ReplaceAllInserts(text: string, from: string, to: string)
    requires from != [] && Contains(text, from)
    ensures Contains(ReplaceAll(text, from, to), to)
  {
    FindLeftmost(text, from);
    var i := Find(text, from).value;
    ReplaceAllFirstMatch(text, from, to, i);
    var r := ReplaceAll(text, from, to);
    assert OccursAt(r, to, i) by {
      assert r[i..i + |to|] == to;
    }
  }

  /** An occurrence is enough for `contains`. */
  lemma {:induction false} ContainsAt(text: string, pat: string, k: nat)
    requires OccursAt(text, pat, k)
    ensures Contains(text, pat)
  {
  }

  /** An occurrence of `pat` that no occurrence of `from` overlaps survives
      the replacement (possibly moved). */
  lemma {:induction false} ReplaceAllKeeps(text: string, from: string, to: string, pat: string, j: nat)
    requires from != [] && OccursAt(text, pat, j)
    requires forall i: nat :: OccursAt(text, from, i) ==> i + |from| <= j || j + |pat| <= i
    ensures Contains(ReplaceAll(text, from, to), pat)
    decreases |text|
  {
    FindLeftmost(text, from);
    var f := Find(text, from);
    if f.None? {
      ReplaceAllNoFind(text, from, to);
    } else if j + |pat| <= f.value {
      KeepsBeforeFirstMatch(text, from, to, pat, f.value, j);
    } else {
      var m := f.value + |from|;
      OccursAtDrop(text, pat, m, j - m);
      NoOverlapAfterDrop(text, from, pat, m, j);
      ReplaceAllKeeps(text[m..], from, to, pat, j - m);
      KeepsAfterFirstMatch(text, from, to, pat, f.value);
    }
  }

  lemma {:induction false} KeepsBeforeFirstMatch(text: string, from: string, to: string, pat: string, i: nat, j: nat)
    requires from != [] && Find(text, from) == Some(i)
    requires j + |pat| <= i && OccursAt(text, pat, j)
    ensures Contains(ReplaceAll(text, from, to), pat)
  {
    ReplaceAllFirstMatch(text, from, to, i);
    var r := ReplaceAll(text, from, to);
    assert r[..i] == text[..i];
    assert r[j..j + |pat|] == r[..i][j..j + |pat|];
    assert text[..i][j..j + |pat|] == text[j..j + |pat|];
    assert OccursAt(r, pat, j);
  }

  lemma {:induction false} KeepsAfterFirstMatch(text: string, from: string, to: string, pat: string, i: nat)
    requires from != [] && Find(text, from) == Some(i)
    requires Contains(ReplaceAll(text[i + |from|..], from, to), pat)
    ensures Contains(ReplaceAll(text, from, to), pat)
  {
    ReplaceAllFirstMatch(text, from, to, i);
    ContainsAppend(text[..i] + to, ReplaceAll(text[i + |from|..], from, to), pat);
  }

  lemma {:induction false} NoOverlapAfterDrop(text: string, from: string, pat: string, m: nat, j: nat)
    requires m <= j <= |text|
    requires forall i: nat :: OccursAt(text, from, i) ==> i + |from| <= j || j + |pat| <= i
    ensures forall i: nat :: OccursAt(text[m..], from, i) ==> i + |from| <= j - m || j - m + |pat| <= i
  {
    forall i: nat | OccursAt(text[m..], from, i) ensures i + |from| <= j - m || j - m + |pat| <= i {
      OccursAtDrop(text, from, m, i);
    }
  }

  lemma {:induction false} ContainsAppend(a: string, b: string, pat: string)
    requires Contains(b, pat)
    ensures Contains(a + b, pat)
  {
    var k: nat :| k <= |b| && OccursAt(b, pat, k);
    OccursAtAppend(a, b, pat, k);
    ContainsAt(a + b, pat, |a| + k);
  }

}
