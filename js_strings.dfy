/**
 * The three JavaScript string operations the modelled components use:
 * `String.prototype.trim`, `String.prototype.split(' ')` and
 * `Array.prototype.join(' ')`.
 */
module JsStrings {

  /**
   * ECMAScript WhiteSpace and LineTerminator code points, the set `trim`
   * strips: tab, line feed, vertical tab, form feed, carriage return, space,
   * no-break space, the byte order mark, the Unicode space separators, and
   * the line and paragraph separators.
   */
  predicate IsWhitespace(c: char) {
    var n := c as int;
    || (0x09 <= n <= 0x0D) || n == 0x20 || n == 0xA0 || n == 0x1680
    || (0x2000 <= n <= 0x200A) || n == 0x2028 || n == 0x2029 || n == 0x202F
    || n == 0x205F || n == 0x3000 || n == 0xFEFF
  }

  predicate AllWhitespace(s: string) {
    forall i :: 0 <= i < |s| ==> IsWhitespace(s[i])
  }

  /** How many whitespace characters `s` starts with. */
  function LeadingWhitespace(s: string): (n: nat)
    ensures n <= |s|
    ensures forall i :: 0 <= i < n ==> IsWhitespace(s[i])
    ensures n < |s| ==> !IsWhitespace(s[n])
  {
    if s != [] && IsWhitespace(s[0]) then 1 + LeadingWhitespace(s[1..]) else 0
  }

  /** How many whitespace characters `s` ends with. */
  function TrailingWhitespace(s: string): (n: nat)
    ensures n <= |s|
    ensures forall i :: |s| - n <= i < |s| ==> IsWhitespace(s[i])
    ensures n < |s| ==> !IsWhitespace(s[|s| - n - 1])
  {
    if s != [] && IsWhitespace(s[|s| - 1]) then 1 + TrailingWhitespace(s[..|s| - 1]) else 0
  }

  /**
   * `s.trim()`: the contiguous middle of `s` left after removing whitespace
   * from both ends; it neither starts nor ends with whitespace.
   */
  function Trim(s: string): (r: string)
    ensures exists i, j :: 0 <= i <= j <= |s| && r == s[i..j]
                        && (forall k :: 0 <= k < i ==> IsWhitespace(s[k]))
                        && (forall k :: j <= k < |s| ==> IsWhitespace(s[k]))
    ensures r == [] || (!IsWhitespace(r[0]) && !IsWhitespace(r[|r| - 1]))
  {
    var i := LeadingWhitespace(s);
    var j := |s| - TrailingWhitespace(s[i..]);
    assert forall k :: j <= k < |s| ==> s[k] == s[i..][k - i];
    s[i..j]
  }

  /** A string trims to "" exactly when every character of it is whitespace. */
  lemma TrimEmptyIffAllWhitespace(s: string)
    ensures Trim(s) == [] <==> AllWhitespace(s)
  {
    var i := LeadingWhitespace(s);
    var t := s[i..];
    if i < |s| {
      assert t[0] == s[i];
      assert TrailingWhitespace(t) < |t|;
    }
  }

  /** Trimming twice is trimming once. */
  lemma TrimIdempotent(s: string)
    ensures Trim(Trim(s)) == Trim(s)
  {
    var r := Trim(s);
    if r != [] {
      assert LeadingWhitespace(r) == 0;
      assert r[0..] == r;
      assert TrailingWhitespace(r) == 0;
      assert r[0..|r|] == r;
    }
  }

  /** Index of the first space in `s`, or `|s|` when there is none. */
  function FirstSpace(s: string): (k: nat)
    ensures k <= |s|
    ensures k < |s| ==> s[k] == ' '
    ensures forall i :: 0 <= i < k ==> s[i] != ' '
  {
    if s == [] then 0
    else if s[0] == ' ' then 0
    else 1 + FirstSpace(s[1..])
  }

  /**
   * `s.split(' ')`: the pieces between consecutive spaces, so `n` spaces give
   * `n + 1` pieces, some of them possibly empty; "" gives [""].
   */
  function Split(s: string): (parts: seq<string>)
    ensures |parts| >= 1
    ensures parts[0] == s[..FirstSpace(s)]
    decreases |s|
  {
    var k := FirstSpace(s);
    if k == |s| then [s]
    else [s[..k]] + Split(s[k + 1..])
  }

  /** `parts.join(' ')`: the pieces with one space between neighbours; [] gives "". */
  function Join(parts: seq<string>): (s: string)
  {
    if parts == [] then ""
    else if |parts| == 1 then parts[0]
    else parts[0] + " " + Join(parts[1..])
  }

  /** Joining what was split gives back the original string. */
  lemma {:induction false} JoinSplit(s: string)
    ensures Join(Split(s)) == s
    decreases |s|
  {
    var k := FirstSpace(s);
    if k < |s| {
      var rest := s[k + 1..];
      SplitAtFirstSpace(s);
      JoinSplit(rest);
      JoinCons(s[..k], Split(rest));
    }
  }

  /** No piece of a split holds a space. */
  lemma {:induction false} SplitNoSpace(s: string)
    ensures forall p :: p in Split(s) ==> ' ' !in p
    decreases |s|
  {
    var k := FirstSpace(s);
    if k < |s| {
      var rest := s[k + 1..];
      SplitAtFirstSpace(s);
      SplitNoSpace(rest);
      assert forall m :: 0 <= m < k ==> s[..k][m] == s[m];
      assert ' ' !in s[..k];
    }
  }

  /** A string with a space is its first piece, a space and the rest, and splits accordingly. */
  lemma SplitAtFirstSpace(s: string)
    requires FirstSpace(s) < |s|
    ensures var k := FirstSpace(s);
      && s == s[..k] + " " + s[k + 1..]
      && Split(s) == [s[..k]] + Split(s[k + 1..])
  {
    var k := FirstSpace(s);
    AroundSpace(s, k);
  }

  /** A string is what lies before a space at `k`, that space, and what lies after it. */
  lemma AroundSpace(s: string, k: nat)
    requires k < |s| && s[k] == ' '
    ensures s == s[..k] + " " + s[k + 1..]
  {
    assert s[..k + 1] == s[..k] + " ";
    assert s == s[..k + 1] + s[k + 1..];
  }

  /** Joining a piece in front of one or more pieces puts one space between it and their join. */
  lemma JoinCons(w: string, parts: seq<string>)
    requires |parts| >= 1
    ensures Join([w] + parts) == w + " " + Join(parts)
  {
    assert ([w] + parts)[1..] == parts;
  }

  /** Splitting what was joined gives back the pieces, when no piece holds a space. */
  lemma {:induction false} SplitJoin(parts: seq<string>)
    requires |parts| >= 1
    requires forall p :: p in parts ==> ' ' !in p
    ensures Split(Join(parts)) == parts
  {
    if |parts| > 1 {
      assert parts[0] in parts;
      assert forall p :: p in parts[1..] ==> p in parts;
      SplitJoin(parts[1..]);
      SplitAfterWord(parts[0], Join(parts[1..]));
      assert parts == [parts[0]] + parts[1..];
    } else {
      assert parts[0] in parts;
      assert FirstSpace(parts[0]) == |parts[0]|;
    }
  }

  /** A word without spaces followed by a space splits off as the first piece. */
  lemma SplitAfterWord(w: string, rest: string)
    requires ' ' !in w
    ensures Split(w + " " + rest) == [w] + Split(rest)
  {
    var s := w + " " + rest;
    assert forall m :: 0 <= m < |w| ==> s[m] == w[m] && s[m] != ' ';
    assert s[|w|] == ' ';
    assert FirstSpace(s) == |w|;
    assert s[..|w|] == w;
    assert s[|w| + 1..] == rest;
  }
}
