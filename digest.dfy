/**
 * The string work of `extractTextFromHtml`. The HTML library's selections are
 * inputs: the title text, the heading texts in document order, the meta
 * description attribute (absent when no such tag exists) and the body text.
 */
module Digest {
  import opened Wrappers

  const HeadingsLimit: nat := 500
  const ContentLimit: nat := 2000

  /**
   * ECMAScript WhiteSpace and LineTerminator code points: exactly what the
   * regular-expression class `\s` matches and what `String.prototype.trim` removes.
   */
  predicate IsSpace(c: char) {
    ('\t' <= c <= '\r') || c == ' ' || c == '\U{00A0}' || c == '\U{1680}' ||
    ('\U{2000}' <= c <= '\U{200A}') || c == '\U{2028}' || c == '\U{2029}' ||
    c == '\U{202F}' || c == '\U{205F}' || c == '\U{3000}' || c == '\U{FEFF}'
  }

  predicate AllSpace(s: string) {
    forall i :: 0 <= i < |s| ==> IsSpace(s[i])
  }

  /** Neither the first nor the last character is whitespace. */
  predicate NoEdgeSpace(s: string) {
    s == [] || (!IsSpace(s[0]) && !IsSpace(s[|s| - 1]))
  }

  /** No two adjacent characters are both whitespace. */
  predicate NoDoubleSpace(s: string) {
    forall i :: 0 < i < |s| ==> !(IsSpace(s[i - 1]) && IsSpace(s[i]))
  }

  /** The only whitespace character that occurs is the plain space. */
  predicate OnlyPlainSpaces(s: string) {
    forall i :: 0 <= i < |s| && IsSpace(s[i]) ==> s[i] == ' '
  }

  /** Length of the leading whitespace run. */
  function LeadingSpaces(s: string): (n: nat)
    ensures n <= |s|
    ensures AllSpace(s[..n])
    ensures n < |s| ==> !IsSpace(s[n])
  {
    if s == [] || !IsSpace(s[0]) then 0 else 1 + LeadingSpaces(s[1..])
  }

  /** Length of the trailing whitespace run. */
  function TrailingSpaces(s: string): (n: nat)
    ensures n <= |s|
    ensures AllSpace(s[|s| - n..])
    ensures n < |s| ==> !IsSpace(s[|s| - 1 - n])
  {
    if s == [] || !IsSpace(s[|s| - 1]) then 0 else 1 + TrailingSpaces(s[..|s| - 1])
  }

  /**
   * `String.prototype.trim`: the input is a whitespace run, the result, and a
   * whitespace run, and the result neither starts nor ends with whitespace.
   */
  function Trim(s: string): (r: string)
    ensures |r| <= |s| - LeadingSpaces(s)
    ensures r == s[LeadingSpaces(s)..LeadingSpaces(s) + |r|]
    ensures AllSpace(s[LeadingSpaces(s) + |r|..])
    ensures NoEdgeSpace(r)
  {
    var t := s[LeadingSpaces(s)..];
    t[..|t| - TrailingSpaces(t)]
  }

  /** `s.replace(/\s+/g, ' ')`: every maximal whitespace run becomes one space. */
  function Collapse(s: string): (r: string)
    ensures |r| <= |s|
    ensures s != [] ==> r != [] && (IsSpace(r[0]) <==> IsSpace(s[0]))
    decreases |s|
  {
    if s == [] then []
    else if IsSpace(s[0]) then [' '] + Collapse(s[LeadingSpaces(s)..])
    else [s[0]] + Collapse(s[1..])
  }

  /** `Array.prototype.join(' ')`. */
  function JoinWithSpace(parts: seq<string>): (r: string)
    ensures |parts| == 0 ==> r == []
    ensures |parts| > 0 ==> |r| == TotalLength(parts) + |parts| - 1
  {
    if |parts| == 0 then []
    else if |parts| == 1 then parts[0]
    else JoinWithSpace(parts[..|parts| - 1]) + " " + parts[|parts| - 1]
  }

  function TotalLength(parts: seq<string>): nat {
    if |parts| == 0 then 0 else TotalLength(parts[..|parts| - 1]) + |parts[|parts| - 1]|
  }

  /**
   * The `i`-th part of a join sits after the earlier parts and their
   * separators, and is followed by a space unless it is the last.
   */
  lemma {:induction false} JoinWithSpaceAt(parts: seq<string>, i: nat)
    requires i < |parts|
    ensures var r := JoinWithSpace(parts);
            var o := TotalLength(parts[..i]) + i;
            o + |parts[i]| <= |r| && r[o..o + |parts[i]|] == parts[i] &&
            (i < |parts| - 1 ==> o + |parts[i]| < |r| && r[o + |parts[i]|] == ' ')
  {
    var n := |parts|;
    if n == 1 {
      assert parts[..0] == [];
    } else {
      var init := parts[..n - 1];
      var r := JoinWithSpace(parts);
      var j := JoinWithSpace(init);
      assert r == j + " " + parts[n - 1];
      if i < n - 1 {
        JoinWithSpaceAt(init, i);
        assert init[..i] == parts[..i] && init[i] == parts[i];
        var o := TotalLength(parts[..i]) + i;
        assert r[o..o + |parts[i]|] == j[o..o + |parts[i]|];
        if i == n - 2 {
          assert init[..n - 2] == parts[..n - 2];
          assert |j| == o + |parts[i]|;
        }
      } else {
        assert parts[..i] == init;
      }
    }
  }

  /** `s.substring(0, n)` for a non-negative `n`: the first `n` characters, or all of a shorter string. */
  function Prefix(s: string, n: nat): (r: string)
    ensures |r| <= n && |r| <= |s|
    ensures r == s[..|r|]
    ensures |s| >= n ==> |r| == n
    ensures |s| <= n ==> r == s
  {
    if |s| <= n then s else s[..n]
  }

  /** The space-joined trimmed heading texts, before truncation. */
  function JoinedHeadings(headingTexts: seq<string>): (r: string)
    ensures |headingTexts| == 0 ==> r == []
    ensures |headingTexts| == 1 ==> r == Trim(headingTexts[0])
    ensures |headingTexts| > 0 ==> |r| == TotalLength(TrimAll(headingTexts)) + |headingTexts| - 1
  {
    JoinWithSpace(TrimAll(headingTexts))
  }

  /** Each text trimmed: the `map` callback of the heading selection. */
  function TrimAll(texts: seq<string>): (r: seq<string>)
    ensures |r| == |texts|
    ensures forall i :: 0 <= i < |texts| ==> r[i] == Trim(texts[i])
  {
    seq(|texts|, i requires 0 <= i < |texts| => Trim(texts[i]))
  }

  /** The `i`-th trimmed heading sits in the joined text after the earlier ones and their separators. */
  lemma JoinedHeadingsAt(headingTexts: seq<string>, i: nat)
    requires i < |headingTexts|
    ensures var r := JoinedHeadings(headingTexts);
            var t := TrimAll(headingTexts);
            var o := TotalLength(t[..i]) + i;
            o + |t[i]| <= |r| && r[o..o + |t[i]|] == t[i] &&
            (i < |headingTexts| - 1 ==> o + |t[i]| < |r| && r[o + |t[i]|] == ' ')
  {
    JoinWithSpaceAt(TrimAll(headingTexts), i);
  }

  /** The body text with whitespace runs collapsed and the ends trimmed, before truncation. */
  function BodyText(bodyText: string): (r: string)
    ensures NoEdgeSpace(r)
    ensures NoDoubleSpace(r)
    ensures OnlyPlainSpaces(r)
    ensures NonSpace(r) == NonSpace(bodyText)
    ensures var c := Collapse(bodyText);
            LeadingSpaces(c) <= 1 && LeadingSpaces(c) + |r| <= |c| <= |r| + 2 &&
            r == c[LeadingSpaces(c)..LeadingSpaces(c) + |r|]
  {
    var c := Collapse(bodyText);
    CollapseShape(bodyText);
    TrimSingleSpaced(c);
    CollapseKeepsText(bodyText);
    TrimKeepsText(c);
    Trim(c)
  }

  /** Trimming a single-spaced string removes at most one space at each end and keeps it single-spaced. */
  lemma TrimSingleSpaced(c: string)
    requires NoDoubleSpace(c) && OnlyPlainSpaces(c)
    ensures var r := Trim(c);
            NoDoubleSpace(r) && OnlyPlainSpaces(r) && LeadingSpaces(c) <= 1 && |c| <= |r| + 2
  {
    var r := Trim(c);
    var l := LeadingSpaces(c);
    SliceSingleSpaced(c, l, l + |r|);
    SliceSingleSpaced(c, l, |c|);
    LeadingRunShort(c);
    TrailingRunShort(c[l..]);
  }

  /** A slice of a single-spaced string is single-spaced. */
  lemma SliceSingleSpaced(c: string, i: nat, j: nat)
    requires i <= j <= |c| && NoDoubleSpace(c) && OnlyPlainSpaces(c)
    ensures NoDoubleSpace(c[i..j]) && OnlyPlainSpaces(c[i..j])
  {
    var t := c[i..j];
    forall k | 0 < k < |t| ensures !(IsSpace(t[k - 1]) && IsSpace(t[k])) {
      assert t[k - 1] == c[i + k - 1] && t[k] == c[i + k];
    }
    forall k | 0 <= k < |t| && IsSpace(t[k]) ensures t[k] == ' ' {
      assert t[k] == c[i + k];
    }
  }

  /** A single-spaced string starts with at most one whitespace character. */
  lemma LeadingRunShort(c: string)
    requires NoDoubleSpace(c)
    ensures LeadingSpaces(c) <= 1
  {
    if |c| >= 2 {
      assert !(IsSpace(c[0]) && IsSpace(c[1]));
    }
  }

  /** A single-spaced string ends with at most one whitespace character. */
  lemma TrailingRunShort(c: string)
    requires NoDoubleSpace(c)
    ensures TrailingSpaces(c) <= 1
  {
    if |c| >= 2 {
      assert !(IsSpace(c[|c| - 2]) && IsSpace(c[|c| - 1]));
    }
  }

  /** What the HTML library selects from the cleaned page. */
  datatype PageText = PageText(
    titleText: string,
    headingTexts: seq<string>,
    metaDescription: Option<string>,
    bodyText: string)

  /** The bounded plain-text digest handed to the enrichment prompt. */
  datatype TextDigest = TextDigest(
    title: string,
    headings: string,
    metaDescription: string,
    content: string)

  /** The value `extractTextFromHtml` returns. */
  function ExtractText(page: PageText): (d: TextDigest)
    ensures d.title == Trim(page.titleText)
    ensures |d.headings| <= HeadingsLimit && |d.headings| <= |JoinedHeadings(page.headingTexts)|
    ensures d.headings == JoinedHeadings(page.headingTexts)[..|d.headings|]
    ensures |JoinedHeadings(page.headingTexts)| >= HeadingsLimit ==> |d.headings| == HeadingsLimit
    ensures |JoinedHeadings(page.headingTexts)| <= HeadingsLimit ==> d.headings == JoinedHeadings(page.headingTexts)
    ensures page.metaDescription.Some? ==> d.metaDescription == page.metaDescription.value
    ensures page.metaDescription.None? ==> d.metaDescription == ""
    ensures |d.content| <= ContentLimit && |d.content| <= |BodyText(page.bodyText)|
    ensures d.content == BodyText(page.bodyText)[..|d.content|]
    ensures |BodyText(page.bodyText)| >= ContentLimit ==> |d.content| == ContentLimit
    ensures |BodyText(page.bodyText)| <= ContentLimit ==> d.content == BodyText(page.bodyText)
    ensures NoDoubleSpace(d.content) && OnlyPlainSpaces(d.content)
    ensures d.content == [] || !IsSpace(d.content[0])
  {
    var body := BodyText(page.bodyText);
    var content := Prefix(body, ContentLimit);
    assert forall i :: 0 <= i < |content| ==> content[i] == body[i];
    TextDigest(
      Trim(page.titleText),
      Prefix(JoinedHeadings(page.headingTexts), HeadingsLimit),
      page.metaDescription.GetOr(""),
      content)
  }

  /** The characters that are not whitespace, in order. */
  function NonSpace(s: string): string {
    if s == [] then [] else (if IsSpace(s[0]) then [] else [s[0]]) + NonSpace(s[1..])
  }

  /** Dropping the leading whitespace run keeps the non-whitespace characters. */
  lemma {:induction false} NonSpaceSkipsRun(s: string)
    ensures NonSpace(s[LeadingSpaces(s)..]) == NonSpace(s)
  {
    if s != [] && IsSpace(s[0]) {
      NonSpaceSkipsRun(s[1..]);
      assert s[1..][LeadingSpaces(s[1..])..] == s[LeadingSpaces(s)..];
    }
  }

  /** Collapsing whitespace keeps every other character, in order. */
  lemma {:induction false} CollapseKeepsText(s: string)
    ensures NonSpace(Collapse(s)) == NonSpace(s)
  {
    if s == [] {
    } else if IsSpace(s[0]) {
      var t := s[LeadingSpaces(s)..];
      CollapseKeepsText(t);
      NonSpaceSkipsRun(s);
      assert Collapse(s) == [' '] + Collapse(t);
      assert ([' '] + Collapse(t))[1..] == Collapse(t);
    } else {
      CollapseKeepsText(s[1..]);
      assert ([s[0]] + Collapse(s[1..]))[1..] == Collapse(s[1..]);
    }
  }

  /** Collapsing leaves a string unchanged exactly when its whitespace is already single plain spaces. */
  lemma {:induction false} CollapseFixpoint(s: string)
    ensures Collapse(s) == s <==> NoDoubleSpace(s) && OnlyPlainSpaces(s)
  {
    CollapseShape(s);
    if NoDoubleSpace(s) && OnlyPlainSpaces(s) && s != [] {
      assert NoDoubleSpace(s[1..]) && OnlyPlainSpaces(s[1..]) by {
        forall i | 0 < i < |s[1..]| ensures !(IsSpace(s[1..][i - 1]) && IsSpace(s[1..][i])) {
          assert s[1..][i - 1] == s[i] && s[1..][i] == s[i + 1];
        }
      }
      CollapseFixpoint(s[1..]);
      if IsSpace(s[0]) {
        assert |s| > 1 ==> !IsSpace(s[1]);
        assert LeadingSpaces(s) == 1;
      }
      assert s == [s[0]] + s[1..];
    }
  }

  /**
   * After collapsing, no two adjacent characters are whitespace and the
   * only whitespace is the plain space.
   */
  lemma {:induction false} CollapseShape(s: string)
    ensures NoDoubleSpace(Collapse(s)) && OnlyPlainSpaces(Collapse(s))
    decreases |s|
  {
    if s != [] {
      var t := if IsSpace(s[0]) then s[LeadingSpaces(s)..] else s[1..];
      CollapseShape(t);
      var h := if IsSpace(s[0]) then ' ' else s[0];
      var ct := Collapse(t);
      assert Collapse(s) == [h] + ct;
      assert IsSpace(s[0]) ==> t == [] || !IsSpace(t[0]);
      forall i | 0 < i < |[h] + ct| ensures !(IsSpace(([h] + ct)[i - 1]) && IsSpace(([h] + ct)[i])) {
        if i > 1 { assert ([h] + ct)[i - 1] == ct[i - 2] && ([h] + ct)[i] == ct[i - 1]; }
      }
    }
  }

  /** Removing whitespace distributes over concatenation. */
  lemma {:induction false} NonSpaceAppend(x: string, y: string)
    ensures NonSpace(x + y) == NonSpace(x) + NonSpace(y)
  {
    if x != [] {
      NonSpaceAppend(x[1..], y);
      assert (x + y)[1..] == x[1..] + y;
    } else {
      assert x + y == y;
    }
  }

  /** A whitespace-only string has no non-whitespace characters. */
  lemma {:induction false} NonSpaceOfSpaces(x: string)
    requires AllSpace(x)
    ensures NonSpace(x) == []
  {
    if x != [] {
      assert AllSpace(x[1..]) by {
        forall i | 0 <= i < |x[1..]| ensures IsSpace(x[1..][i]) { assert x[1..][i] == x[i + 1]; }
      }
      NonSpaceOfSpaces(x[1..]);
    }
  }

  /** Trimming removes only whitespace. */
  lemma TrimKeepsText(s: string)
    ensures NonSpace(Trim(s)) == NonSpace(s)
  {
    var l := LeadingSpaces(s);
    var r := Trim(s);
    assert s == s[..l] + r + s[l + |r|..];
    NonSpaceAppend(s[..l] + r, s[l + |r|..]);
    NonSpaceAppend(s[..l], r);
    NonSpaceOfSpaces(s[..l]);
    NonSpaceOfSpaces(s[l + |r|..]);
  }

  /** The contract of LeadingSpaces determines it. */
  lemma {:induction false} LeadingSpacesUnique(s: string, n: nat)
    requires n <= |s| && AllSpace(s[..n]) && (n < |s| ==> !IsSpace(s[n]))
    ensures LeadingSpaces(s) == n
  {
    if n > 0 {
      assert s[..n][0] == s[0];
      var t := s[1..][..n - 1];
      assert AllSpace(t) by {
        forall k | 0 <= k < n - 1 ensures IsSpace(t[k]) {
          assert t[k] == s[..n][k + 1];
        }
      }
      LeadingSpacesUnique(s[1..], n - 1);
    }
  }

  /** A whitespace run followed by a non-whitespace character (or nothing) becomes one space. */
  lemma CollapseSpaceRun(x: string, v: string)
    requires x != [] && AllSpace(x)
    requires v == [] || !IsSpace(v[0])
    ensures Collapse(x + v) == " " + Collapse(v)
  {
    var s := x + v;
    assert s[..|x|] == x;
    assert s[0] == x[0];
    LeadingSpacesUnique(s, |x|);
    assert s[|x|..] == v;
  }

  /** A single character collapses to itself, or to a plain space when it is whitespace. */
  lemma CollapseChar(c: char)
    ensures Collapse([c]) == if IsSpace(c) then " " else [c]
  {
  }

  /**
   * Collapsing works piece by piece wherever the cut does not split a
   * whitespace run: every run stays in place as one space.
   */
  lemma {:induction false} CollapseAppend(a: string, b: string)
    requires a == [] || b == [] || !IsSpace(a[|a| - 1]) || !IsSpace(b[0])
    ensures Collapse(a + b) == Collapse(a) + Collapse(b)
    decreases |a|, 1
  {
    if a == [] {
      assert a + b == b;
    } else if b == [] {
      assert a + b == a;
    } else if !IsSpace(a[0]) {
      CollapseAppendWord(a, b);
    } else if LeadingSpaces(a) < |a| {
      CollapseAppendSpace(a, b);
    } else {
      CollapseAppendRun(a, b);
    }
  }

  /** CollapseAppend when `a` starts with a non-whitespace character. */
  lemma {:induction false} CollapseAppendWord(a: string, b: string)
    requires a != [] && b != [] && !IsSpace(a[0])
    requires !IsSpace(a[|a| - 1]) || !IsSpace(b[0])
    ensures Collapse(a + b) == Collapse(a) + Collapse(b)
    decreases |a|, 0
  {
    var ab := a + b;
    assert ab[0] == a[0];
    assert ab[1..] == a[1..] + b;
    assert a[1..] != [] ==> a[1..][|a[1..]| - 1] == a[|a| - 1];
    CollapseAppend(a[1..], b);
    AppendAssoc([a[0]], Collapse(a[1..]), Collapse(b));
  }

  /** CollapseAppend when `a` starts with a whitespace run that ends inside it. */
  lemma {:induction false} CollapseAppendSpace(a: string, b: string)
    requires a != [] && b != [] && IsSpace(a[0]) && LeadingSpaces(a) < |a|
    requires !IsSpace(a[|a| - 1]) || !IsSpace(b[0])
    ensures Collapse(a + b) == Collapse(a) + Collapse(b)
    decreases |a|, 0
  {
    var k := LeadingSpaces(a);
    assert (a + b)[..k] == a[..k];
    LeadingSpacesUnique(a + b, k);
    assert (a + b)[k..] == a[k..] + b;
    CollapseAppend(a[k..], b);
  }

  /** CollapseAppend when `a` is one whitespace run. */
  lemma CollapseAppendRun(a: string, b: string)
    requires a != [] && b != [] && LeadingSpaces(a) == |a|
    requires !IsSpace(a[|a| - 1]) || !IsSpace(b[0])
    ensures Collapse(a + b) == Collapse(a) + Collapse(b)
  {
    assert a[..|a|] == a;
    assert a[..|a|][|a| - 1] == a[|a| - 1];
    CollapseSpaceRun(a, b);
    CollapseSpaceRun(a, []);
    assert a + [] == a;
    assert Collapse(a) == " ";
  }

  /**
   * A whitespace run between a piece that does not end in whitespace and one
   * that does not start with it becomes exactly one space, in place.
   */
  lemma CollapseAroundRun(p: string, w: string, v: string)
    requires p == [] || !IsSpace(p[|p| - 1])
    requires w != [] && AllSpace(w)
    requires v == [] || !IsSpace(v[0])
    ensures Collapse(p + w + v) == Collapse(p) + " " + Collapse(v)
  {
    CollapseSpaceRun(w, v);
    AppendAssoc(p, w, v);
    CollapseAppend(p, w + v);
    AppendAssoc(Collapse(p), " ", Collapse(v));
  }

  /** Concatenation is associative. */
  lemma AppendAssoc(x: string, y: string, z: string)
    ensures x + y + z == x + (y + z)
  {
  }

  /** Collapsing twice is collapsing once. */
  lemma CollapseIdempotent(s: string)
    ensures Collapse(Collapse(s)) == Collapse(s)
  {
    CollapseShape(s);
    CollapseFixpoint(Collapse(s));
  }

  /** Trimming leaves a string unchanged exactly when it has no whitespace at either end. */
  lemma TrimFixpoint(s: string)
    ensures Trim(s) == s <==> NoEdgeSpace(s)
  {
  }
}
