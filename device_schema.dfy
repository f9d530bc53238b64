/**
 * The string rules of the device schema in server/models/Device.js: the
 * `trim: true` setter on `name` and `ip`, and the IP validator, given both
 * as the pattern's structure and as an executable check proved equal to it.
 */
module DeviceSchema {

  // ---------------------------------------------------------------------
  // Characters
  // ---------------------------------------------------------------------

  predicate IsDigit(c: char) { '0' <= c <= '9' }

  /** `[a-f0-9]` under the pattern's `i` flag. */
  predicate IsHex(c: char) { IsDigit(c) || 'a' <= c <= 'f' || 'A' <= c <= 'F' }

  /** `[a-f0-9:]` under the pattern's `i` flag. */
  predicate IsHexOrColon(c: char) { IsHex(c) || c == ':' }

  /** The white space `String.prototype.trim` strips (the common code points). */
  predicate IsSpace(c: char)
  {
    c == ' ' || c == '\t' || c == '\n' || c == '\r' || c == '\U{000B}' || c == '\U{000C}'
    || c == '\U{00A0}' || c == '\U{FEFF}' || c == '\U{2028}' || c == '\U{2029}'
  }

  predicate AllSpace(s: string) { forall k :: 0 <= k < |s| ==> IsSpace(s[k]) }

  // ---------------------------------------------------------------------
  // The `trim: true` setter on `name` and `ip`
  // ---------------------------------------------------------------------

  /** The number of white-space characters starting at `from`. */
  function LeadingSpace(s: string, from: nat): (n: nat)
    requires from <= |s|
    ensures from + n <= |s|
    decreases |s| - from
  {
    if from < |s| && IsSpace(s[from]) then 1 + LeadingSpace(s, from + 1) else 0
  }

  lemma {:induction false} LeadingSpaceFacts(s: string, from: nat)
    requires from <= |s|
    ensures forall k :: from <= k < from + LeadingSpace(s, from) ==> IsSpace(s[k])
    ensures from + LeadingSpace(s, from) == |s| || !IsSpace(s[from + LeadingSpace(s, from)])
    decreases |s| - from
  {
    if from < |s| && IsSpace(s[from]) {
      LeadingSpaceFacts(s, from + 1);
    }
  }

  /** The number of white-space characters ending just before `to`. */
  function TrailingSpace(s: string, to: nat): (n: nat)
    requires to <= |s|
    ensures n <= to
  {
    if to > 0 && IsSpace(s[to - 1]) then 1 + TrailingSpace(s, to - 1) else 0
  }

  lemma {:induction false} TrailingSpaceFacts(s: string, to: nat)
    requires to <= |s|
    ensures forall k :: to - TrailingSpace(s, to) <= k < to ==> IsSpace(s[k])
    ensures TrailingSpace(s, to) == to || !IsSpace(s[to - TrailingSpace(s, to) - 1])
  {
    if to > 0 && IsSpace(s[to - 1]) {
      TrailingSpaceFacts(s, to - 1);
    }
  }

  /**
   * `String.prototype.trim`: the result is the part of s between its
   * leading and its trailing white space, so only white space is dropped,
   * and it is empty exactly when s is blank (which is what makes a blank
   * `name` or `ip` fail the `required` check).
   */
  function Trim(s: string): (r: string)
    ensures |r| <= |s|
    ensures r != [] ==> !IsSpace(r[0]) && !IsSpace(r[|r| - 1])
    ensures r == [] <==> AllSpace(s)
    ensures r != [] ==>
      var a := LeadingSpace(s, 0);
      && a + |r| <= |s| && r == s[a..a + |r|]
      && AllSpace(s[..a]) && AllSpace(s[a + |r|..])
  {
    var a := LeadingSpace(s, 0);
    LeadingSpaceFacts(s, 0);
    if a == |s| then
      []
    else
      var z := TrailingSpace(s, |s|);
      TrailingSpaceFacts(s, |s|);
      assert a < |s| - z;
      s[a..|s| - z]
  }

  /** Neither end of s is white space. */
  predicate IsTrimmed(s: string)
  {
    s == [] || (!IsSpace(s[0]) && !IsSpace(s[|s| - 1]))
  }

  /** Trimming yields exactly the trimmed strings, and leaves them alone. */
  lemma TrimmedIsFixed(s: string)
    ensures IsTrimmed(Trim(s))
    ensures IsTrimmed(s) ==> Trim(s) == s
  {
    if IsTrimmed(s) && s != [] {
      assert LeadingSpace(s, 0) == 0;
      assert TrailingSpace(s, |s|) == 0;
      assert s[0..|s|] == s;
    }
  }

  // ---------------------------------------------------------------------
  // The IP validator
  //
  //   /^(([0-9]{1,3}\.){3}[0-9]{1,3})|(([a-f0-9:]+:+)+[a-f0-9]+)$/i
  //
  // The alternation splits the pattern into `^quad` and `hexcolon$`: the
  // first anchor binds to the dotted form only, the second to the colon form
  // only. So a string passes when it STARTS with a dotted quad (anything may
  // follow, and groups are not limited to 255) or ENDS with the colon form
  // (anything may precede it). The ghost predicates below follow the
  // pattern's structure literally; IsIpAddress is the executable check and
  // its contract states that the two agree.
  // ---------------------------------------------------------------------

  /** `[0-9]{1,3}` matches all of t. */
  predicate DigitGroup(t: string)
  {
    1 <= |t| <= 3 && forall k :: 0 <= k < |t| ==> IsDigit(t[k])
  }

  /** `([0-9]{1,3}\.){3}[0-9]{1,3}` matches s[..e], with its dots at a, b and c. */
  ghost predicate QuadAt(s: string, a: int, b: int, c: int, e: int)
  {
    && 0 < a < b < c < e <= |s|
    && s[a] == '.' && s[b] == '.' && s[c] == '.'
    && DigitGroup(s[..a]) && DigitGroup(s[a + 1..b])
    && DigitGroup(s[b + 1..c]) && DigitGroup(s[c + 1..e])
  }

  /** The first alternative, `^(([0-9]{1,3}\.){3}[0-9]{1,3})`, matches. */
  ghost predicate QuadPrefixPattern(s: string)
  {
    exists a, b, c, e :: QuadAt(s, a, b, c, e)
  }

  /** `[a-f0-9:]+:+` matches g, the colon run starting at k. */
  ghost predicate GroupAt(g: string, k: int)
  {
    && 0 < k < |g|
    && (forall i :: 0 <= i < k ==> IsHexOrColon(g[i]))
    && (forall i :: k <= i < |g| ==> g[i] == ':')
  }

  ghost predicate Group(g: string) { exists k :: GroupAt(g, k) }

  /** `([a-f0-9:]+:+)+` matches u. */
  ghost predicate Groups(u: string)
    decreases |u|, 1
  {
    exists k :: GroupsAt(u, k)
  }

  /** u is a first group u[..k] followed by more groups (or by nothing). */
  ghost predicate GroupsAt(u: string, k: int)
    decreases |u|, 0
  {
    0 < k <= |u| && Group(u[..k]) && (k == |u| || Groups(u[k..]))
  }

  /** `[a-f0-9]+` matches all of v. */
  predicate HexRun(v: string)
  {
    |v| > 0 && forall i :: 0 <= i < |v| ==> IsHex(v[i])
  }

  /** `([a-f0-9:]+:+)+[a-f0-9]+` matches t, the hex run starting at k. */
  ghost predicate ColonFormAt(t: string, k: int)
  {
    0 <= k < |t| && Groups(t[..k]) && HexRun(t[k..])
  }

  ghost predicate ColonForm(t: string) { exists k :: ColonFormAt(t, k) }

  ghost predicate ColonSuffixAt(s: string, j: int)
  {
    0 <= j <= |s| && ColonForm(s[j..])
  }

  /** The second alternative, `(([a-f0-9:]+:+)+[a-f0-9]+)$`, matches. */
  ghost predicate ColonSuffixPattern(s: string)
  {
    exists j :: ColonSuffixAt(s, j)
  }

  /** What `RegExp.prototype.test` answers for the device IP pattern. */
  ghost predicate IpPattern(s: string)
  {
    QuadPrefixPattern(s) || ColonSuffixPattern(s)
  }

  // --- the executable check ---

  /** The length of the run of digits starting at `from`. */
  function DigitRun(s: string, from: nat): (n: nat)
    requires from <= |s|
    ensures from + n <= |s|
    decreases |s| - from
  {
    if from < |s| && IsDigit(s[from]) then 1 + DigitRun(s, from + 1) else 0
  }

  /** The run DigitRun measures is made of digits and ends at a non-digit or at the end. */
  lemma {:induction false} DigitRunFacts(s: string, from: nat)
    requires from <= |s|
    ensures forall k :: from <= k < from + DigitRun(s, from) ==> IsDigit(s[k])
    ensures from + DigitRun(s, from) == |s| || !IsDigit(s[from + DigitRun(s, from)])
    decreases |s| - from
  {
    if from < |s| && IsDigit(s[from]) {
      DigitRunFacts(s, from + 1);
    }
  }

  /** A digit run of one to three digits ending in a dot starts at p. */
  predicate DottedGroupAt(s: string, p: nat)
    requires p <= |s|
  {
    var n := DigitRun(s, p);
    1 <= n <= 3 && p + n < |s| && s[p + n] == '.'
  }

  /** `dots` more dotted groups, then a group of at least one digit, start at p. */
  predicate QuadFrom(s: string, p: nat, dots: nat)
    requires p <= |s|
    decreases dots
  {
    if dots == 0 then DigitRun(s, p) >= 1
    else DottedGroupAt(s, p) && QuadFrom(s, p + DigitRun(s, p) + 1, dots - 1)
  }

  predicate StartsWithQuad(s: string)
  {
    QuadFrom(s, 0, 3)
  }

  /** The start of the longest run of `[a-f0-9:]` characters that ends at j. */
  function RunStart(s: string, j: nat): (r: nat)
    requires j <= |s|
    ensures r <= j
    ensures forall i :: r <= i < j ==> IsHexOrColon(s[i])
    ensures r == 0 || !IsHexOrColon(s[r - 1])
  {
    if j == 0 || !IsHexOrColon(s[j - 1]) then j else RunStart(s, j - 1)
  }

  predicate AllHexOrColon(t: string) { forall i :: 0 <= i < |t| ==> IsHexOrColon(t[i]) }

  /** t is made of `[a-f0-9:]`, ends in a hex digit and has a colon after its first character. */
  predicate ColonShape(t: string)
  {
    && AllHexOrColon(t)
    && |t| > 0 && IsHex(t[|t| - 1])
    && exists i :: 1 <= i < |t| && t[i] == ':'
  }

  predicate EndsWithColonForm(s: string)
  {
    ColonShape(s[RunStart(s, |s|)..])
  }

  /**
   * The device IP validator: accepted exactly when the pattern matches,
   * that is, when s starts with a dotted quad of 1-3 digit groups or ends
   * with the hex-colon form.
   */
  function IsIpAddress(s: string): (r: bool)
    ensures r <==> IpPattern(s)
    ensures r <==> StartsWithQuad(s) || EndsWithColonForm(s)
  {
    QuadPrefixIff(s);
    ColonSuffixIff(s);
    StartsWithQuad(s) || EndsWithColonForm(s)
  }

  // --- the proof that the check and the pattern agree ---

  /** A digit run bounded by a non-digit (or the end) is what DigitRun measures. */
  lemma {:induction false} DigitRunExact(s: string, from: nat, to: nat)
    requires from <= to <= |s|
    requires forall k :: from <= k < to ==> IsDigit(s[k])
    requires to == |s| || !IsDigit(s[to])
    ensures DigitRun(s, from) == to - from
    decreases |s| - from
  {
    if from < to {
      DigitRunExact(s, from + 1, to);
    }
  }

  lemma DigitGroupSlice(s: string, i: int, j: int)
    requires 0 <= i <= j <= |s| && DigitGroup(s[i..j])
    ensures 1 <= j - i <= 3 && forall k :: i <= k < j ==> IsDigit(s[k])
  {
    forall k | i <= k < j ensures IsDigit(s[k]) {
      assert s[k] == s[i..j][k - i];
    }
  }

  lemma QuadPrefixIff(s: string)
    ensures StartsWithQuad(s) <==> QuadPrefixPattern(s)
  {
    if StartsWithQuad(s) { StartsWithQuadMatches(s); }
    if QuadPrefixPattern(s) {
      var a, b, c, e :| QuadAt(s, a, b, c, e);
      QuadMatchIsFound(s, a, b, c, e);
    }
  }

  lemma StartsWithQuadMatches(s: string)
    requires StartsWithQuad(s)
    ensures QuadPrefixPattern(s)
  {
    var a, b, c := QuadDots(s);
    RunIsGroup(s, 0, a);
    assert s[..a] == s[0..a];
    RunIsGroup(s, a + 1, b - a - 1);
    RunIsGroup(s, b + 1, c - b - 1);
    RunIsGroup(s, c + 1, 1);
    assert QuadAt(s, a, b, c, c + 2);
  }

  /** The three dots a quad found by QuadFrom has, with the digit runs between them. */
  lemma QuadDots(s: string) returns (a: nat, b: nat, c: nat)
    requires StartsWithQuad(s)
    ensures 0 < a < b < c && c + 1 < |s|
    ensures s[a] == '.' && s[b] == '.' && s[c] == '.'
    ensures DigitRun(s, 0) == a <= 3
    ensures DigitRun(s, a + 1) == b - a - 1 <= 3
    ensures DigitRun(s, b + 1) == c - b - 1 <= 3
    ensures DigitRun(s, c + 1) >= 1
  {
    a := DottedStep(s, 0, 3);
    b := DottedStep(s, a + 1, 2);
    c := DottedStep(s, b + 1, 1);
  }

  /** Unfolding one dotted group: it ends at the dot q, and what follows is matched by the remaining groups. */
  lemma DottedStep(s: string, p: nat, dots: nat) returns (q: nat)
    requires p <= |s| && dots > 0 && QuadFrom(s, p, dots)
    ensures q == p + DigitRun(s, p) && 1 <= q - p <= 3 && q < |s| && s[q] == '.'
    ensures QuadFrom(s, q + 1, dots - 1)
  {
    q := p + DigitRun(s, p);
  }

  /** The first n digits of a run form a group when 1 <= n <= 3. */
  lemma RunIsGroup(s: string, p: nat, n: nat)
    requires p <= |s| && 1 <= n <= 3 && n <= DigitRun(s, p)
    ensures DigitGroup(s[p..p + n])
  {
    DigitRunFacts(s, p);
    var t := s[p..p + n];
    forall k | 0 <= k < n ensures IsDigit(t[k]) {
      assert t[k] == s[p + k];
    }
  }

  /** A group of the pattern is exactly the digit run DigitRun finds. */
  lemma DigitGroupRun(s: string, i: int, j: int)
    requires 0 <= i <= j < |s| && DigitGroup(s[i..j]) && s[j] == '.'
    ensures DigitRun(s, i) == j - i && DottedGroupAt(s, i)
  {
    forall k | i <= k < j ensures IsDigit(s[k]) {
      assert s[k] == s[i..j][k - i];
    }
    DigitRunExact(s, i, j);
  }

  lemma QuadMatchIsFound(s: string, a: int, b: int, c: int, e: int)
    requires QuadAt(s, a, b, c, e)
    ensures StartsWithQuad(s)
  {
    assert s[..a] == s[0..a];
    DigitGroupRun(s, 0, a);
    DigitGroupRun(s, a + 1, b);
    DigitGroupRun(s, b + 1, c);
    assert s[c + 1] == s[c + 1..e][0];
    assert QuadFrom(s, c + 1, 0);
    assert QuadFrom(s, b + 1, 1);
    assert QuadFrom(s, a + 1, 2);
  }

  lemma GroupIff(g: string)
    ensures Group(g) <==> |g| >= 2 && AllHexOrColon(g) && g[|g| - 1] == ':'
  {
    if |g| >= 2 && AllHexOrColon(g) && g[|g| - 1] == ':' {
      assert GroupAt(g, |g| - 1);
    }
  }

  /** `([a-f0-9:]+:+)+` matches exactly the `[a-f0-9:]` strings of length at least two that end in a colon. */
  lemma GroupsIff(u: string)
    ensures Groups(u) <==> |u| >= 2 && AllHexOrColon(u) && u[|u| - 1] == ':'
  {
    if Groups(u) { GroupsHaveShape(u); }
    if |u| >= 2 && AllHexOrColon(u) && u[|u| - 1] == ':' {
      assert u[..|u|] == u;
      GroupIff(u);
      assert GroupsAt(u, |u|);
    }
  }

  lemma {:induction false} GroupsHaveShape(u: string)
    requires Groups(u)
    ensures |u| >= 2 && AllHexOrColon(u) && u[|u| - 1] == ':'
    decreases |u|
  {
    var k :| GroupsAt(u, k);
    GroupIff(u[..k]);
    if k < |u| {
      GroupsHaveShape(u[k..]);
      forall i | 0 <= i < |u| ensures IsHexOrColon(u[i]) {
        if i < k { assert u[i] == u[..k][i]; } else { assert u[i] == u[k..][i - k]; }
      }
      assert u[|u| - 1] == u[k..][|u| - k - 1];
    } else {
      assert u[..k] == u;
    }
  }

  /** The index of the last colon of t, or -1 when t has none. */
  function LastColon(t: string): (m: int)
    ensures -1 <= m < |t|
    ensures m >= 0 ==> t[m] == ':'
    ensures forall i :: m < i < |t| ==> t[i] != ':'
  {
    if t == [] then -1
    else if t[|t| - 1] == ':' then |t| - 1
    else LastColon(t[..|t| - 1])
  }

  lemma ColonFormIff(t: string)
    ensures ColonForm(t) <==> ColonShape(t)
  {
    if ColonForm(t) { ColonFormHasShape(t); }
    if ColonShape(t) { ColonShapeIsForm(t); }
  }

  lemma ColonFormHasShape(t: string)
    requires ColonForm(t)
    ensures ColonShape(t)
  {
    var k :| ColonFormAt(t, k);
    GroupsIff(t[..k]);
    forall i | 0 <= i < |t| ensures IsHexOrColon(t[i]) {
      if i < k { assert t[i] == t[..k][i]; } else { assert t[i] == t[k..][i - k]; }
    }
    assert t[|t| - 1] == t[k..][|t| - 1 - k];
    assert t[k - 1] == t[..k][k - 1];
    assert 1 <= k - 1 < |t| && t[k - 1] == ':';
  }

  lemma ColonShapeIsForm(t: string)
    requires ColonShape(t)
    ensures ColonForm(t)
  {
    var i :| 1 <= i < |t| && t[i] == ':';
    var m := LastColon(t);
    assert m >= i;
    var k := m + 1;
    assert t[|t| - 1] != ':';
    assert k < |t|;
    GroupsIff(t[..k]);
    forall j | 0 <= j < |t| - k ensures IsHex(t[k..][j]) {
      assert t[k..][j] == t[k + j];
    }
    assert ColonFormAt(t, k);
  }

  /** A run of `[a-f0-9:]` up to j that reaches back to `from` puts RunStart at or before `from`. */
  lemma {:induction false} RunStartBound(s: string, j: nat, from: nat)
    requires from <= j <= |s|
    requires forall i :: from <= i < j ==> IsHexOrColon(s[i])
    ensures RunStart(s, j) <= from
    decreases j
  {
    if from < j {
      RunStartBound(s, j - 1, from);
    }
  }

  lemma ColonSuffixIff(s: string)
    ensures EndsWithColonForm(s) <==> ColonSuffixPattern(s)
  {
    var r := RunStart(s, |s|);
    ColonFormIff(s[r..]);
    if EndsWithColonForm(s) {
      assert ColonSuffixAt(s, r);
    }
    if ColonSuffixPattern(s) {
      var j :| ColonSuffixAt(s, j);
      var t := s[j..];
      ColonFormIff(t);
      forall i | j <= i < |s| ensures IsHexOrColon(s[i]) {
        assert s[i] == t[i - j];
      }
      RunStartBound(s, |s|, j);
      ShapeExtendsLeft(s, r, j);
    }
  }

  /** Prefixing `[a-f0-9:]` characters to a string of the colon shape keeps the shape. */
  lemma ShapeExtendsLeft(s: string, r: nat, j: nat)
    requires r <= j <= |s|
    requires forall i :: r <= i < |s| ==> IsHexOrColon(s[i])
    requires ColonShape(s[j..])
    ensures ColonShape(s[r..])
  {
    var t, u := s[j..], s[r..];
    var i :| 1 <= i < |t| && t[i] == ':';
    assert u[i + (j - r)] == t[i];
    assert u[|u| - 1] == t[|t| - 1];
  }

  // --- how the pattern treats some concrete addresses ---

  /** Groups are not limited to 255. */
  lemma QuadWithoutOctetLimit()
    ensures IsIpAddress("999.999.999.999")
  {
    var s := "999.999.999.999";
    DigitRunExact(s, 12, 15);
    assert QuadFrom(s, 12, 0);
    DigitRunExact(s, 8, 11);
    assert QuadFrom(s, 8, 1);
    DigitRunExact(s, 4, 7);
    assert QuadFrom(s, 4, 2);
    DigitRunExact(s, 0, 3);
    assert StartsWithQuad(s);
  }

  /** Anything may follow a leading dotted quad. */
  lemma QuadWithTrailingText()
    ensures IsIpAddress("1.2.3.4; x")
  {
    var s := "1.2.3.4; x";
    DigitRunExact(s, 6, 7);
    assert QuadFrom(s, 6, 0);
    DigitRunExact(s, 4, 5);
    assert QuadFrom(s, 4, 1);
    DigitRunExact(s, 2, 3);
    assert QuadFrom(s, 2, 2);
    DigitRunExact(s, 0, 1);
    assert StartsWithQuad(s);
  }

  /** A colon form needs a colon past its first character: `::1` passes, `:1` does not. */
  lemma ColonFormExamples()
    ensures IsIpAddress("::1")
    ensures !IsIpAddress(":1")
  {
    assert RunStart("::1", 3) == 0;
    assert ColonShape("::1"[0..]) by { assert "::1"[0..][1] == ':'; }
    assert RunStart(":1", 2) == 0;
    assert ":1"[0..] == ":1";
    assert DigitRun(":1", 0) == 0;
  }
}
