/** The line handling of the wallet key file: the text is split at every newline, lines that trim to
    nothing are dropped, and each remaining line, trimmed, is a private key. Trimming removes
    what ECMAScript's String.prototype.trim removes: the WhiteSpace and LineTerminator characters. */
module KeyFile {

  predicate IsWhiteSpace(c: char)
  {
    || c == '\t' || c == '\n' || c == '\U{000B}' || c == '\U{000C}' || c == '\r' || c == ' '
    || c == '\U{00A0}' || c == '\U{1680}' || ('\U{2000}' <= c <= '\U{200A}')
    || c == '\U{2028}' || c == '\U{2029}' || c == '\U{202F}' || c == '\U{205F}'
    || c == '\U{3000}' || c == '\U{FEFF}'
  }

  predicate IsBlank(s: string)
  {
    forall i :: 0 <= i < |s| ==> IsWhiteSpace(s[i])
  }

  /** The first index at or after i that does not hold white space (|s| if there is none). */
  function SpanStart(s: string, i: nat): (lo: nat)
    requires i <= |s|
    ensures i <= lo <= |s|
    ensures forall k :: i <= k < lo ==> IsWhiteSpace(s[k])
    ensures lo < |s| ==> !IsWhiteSpace(s[lo])
    decreases |s| - i
  {
    if i == |s| || !IsWhiteSpace(s[i]) then i else SpanStart(s, i + 1)
  }

  /** The end of s[lo..j] once the white space at its back is cut off. */
  function SpanEnd(s: string, lo: nat, j: nat): (hi: nat)
    requires lo <= j <= |s|
    ensures lo <= hi <= j
    ensures forall k :: hi <= k < j ==> IsWhiteSpace(s[k])
    ensures hi > lo ==> !IsWhiteSpace(s[hi - 1])
    decreases j
  {
    if j == lo || !IsWhiteSpace(s[j - 1]) then j else SpanEnd(s, lo, j - 1)
  }

  lemma TrimFacts(s: string, lo: nat, hi: nat)
    requires lo == SpanStart(s, 0) && hi == SpanEnd(s, lo, |s|)
    ensures forall k :: 0 <= k < lo ==> IsWhiteSpace(s[k])
    ensures forall k :: hi <= k < |s| ==> IsWhiteSpace(s[k])
    ensures lo < hi ==> !IsWhiteSpace(s[lo]) && !IsWhiteSpace(s[hi - 1])
    ensures lo == hi <==> IsBlank(s)
  {
  }

  /** line.trim(): a slice of s that neither starts nor ends with white space, with only white
      space cut off on either side; it is empty exactly when s is blank. */
  function Trim(s: string): (r: string)
    ensures exists lo, hi :: 0 <= lo <= hi <= |s| && r == s[lo..hi]
              && (forall k :: 0 <= k < lo ==> IsWhiteSpace(s[k]))
              && (forall k :: hi <= k < |s| ==> IsWhiteSpace(s[k]))
    ensures r == [] || (!IsWhiteSpace(r[0]) && !IsWhiteSpace(r[|r| - 1]))
    ensures r == [] <==> IsBlank(s)
  {
    var lo := SpanStart(s, 0);
    var hi := SpanEnd(s, lo, |s|);
    TrimFacts(s, lo, hi);
    s[lo..hi]
  }

  /** Trimming twice is trimming once. */
  lemma TrimIdempotent(s: string)
    ensures Trim(Trim(s)) == Trim(s)
  {
    var r := Trim(s);
    assert SpanStart(r, 0) == 0;
    assert SpanEnd(r, 0, |r|) == |r|;
    assert r[0..|r|] == r;
  }

  // ---------------------------------------------------------------------------------------
  // split('\n')

  /** The first position of c in s. */
  function IndexOf(s: string, c: char): (i: nat)
    requires c in s
    ensures i < |s| && s[i] == c && c !in s[..i]
  {
    if s[0] == c then 0 else assert s == [s[0]] + s[1..]; 1 + IndexOf(s[1..], c)
  }

  /** String.prototype.split with a one-character separator: the pieces between separators, so
      one more piece than there are separators, and none containing the separator. */
  function Split(s: string, sep: char): (parts: seq<string>)
    ensures |parts| >= 1
    ensures forall k :: 0 <= k < |parts| ==> sep !in parts[k]
    decreases |s|
  {
    if sep in s then
      var i := IndexOf(s, sep);
      [s[..i]] + Split(s[i + 1..], sep)
    else [s]
  }

  /** Array.prototype.join with a one-character separator. */
  function Join(parts: seq<string>, sep: char): string
  {
    if parts == [] then ""
    else if |parts| == 1 then parts[0]
    else parts[0] + [sep] + Join(parts[1..], sep)
  }

  /** Joining the pieces gives back the text. */
  lemma {:induction false} SplitJoin(s: string, sep: char)
    ensures Join(Split(s, sep), sep) == s
    decreases |s|
  {
    if sep in s {
      var i := IndexOf(s, sep);
      var parts, tail := Split(s, sep), Split(s[i + 1..], sep);
      SplitJoin(s[i + 1..], sep);
      assert parts == [s[..i]] + tail;
      assert parts[0] == s[..i] && parts[1..] == tail && |parts| >= 2;
      assert Join(parts, sep) == s[..i] + [sep] + Join(tail, sep);
      assert s == s[..i] + [sep] + s[i + 1..];
    }
  }

  /** A position holding c with no c before it is the first position of c. */
  lemma IndexOfUnique(s: string, c: char, i: nat)
    requires i < |s| && s[i] == c && c !in s[..i]
    ensures IndexOf(s, c) == i
  {
  }

  /** Splitting a join of separator-free pieces gives back the pieces. */
  lemma {:induction false} JoinSplit(parts: seq<string>, sep: char)
    requires |parts| >= 1
    requires forall k :: 0 <= k < |parts| ==> sep !in parts[k]
    ensures Split(Join(parts, sep), sep) == parts
    decreases |parts|
  {
    if |parts| > 1 {
      var s, head, rest := Join(parts, sep), parts[0], Join(parts[1..], sep);
      var n := |head|;
      JoinSplit(parts[1..], sep);
      assert s == head + [sep] + rest;
      assert s[..n] == head && s[n] == sep && s[n + 1..] == rest;
      IndexOfUnique(s, sep, n);
      assert Split(s, sep) == [head] + Split(rest, sep);
      FirstAndRest(parts);
    }
  }

  /** A non-empty list is its first element followed by the rest. */
  lemma FirstAndRest<T>(xs: seq<T>)
    requires |xs| > 0
    ensures xs == [xs[0]] + xs[1..]
  {
  }

  // ---------------------------------------------------------------------------------------
  // filter(line => line.trim() !== '')

  /** The lines that do not trim to nothing, in order. */
  function NonBlank(lines: seq<string>): (keys: seq<string>)
    ensures |keys| <= |lines|
    ensures multiset(keys) <= multiset(lines)
    ensures forall x :: x in keys <==> x in lines && !IsBlank(x)
  {
    if lines == [] then []
    else
      assert lines == [lines[0]] + lines[1..];
      (if Trim(lines[0]) != [] then [lines[0]] else []) + NonBlank(lines[1..])
  }

  /** The key lines of a wallet file: exactly its non-blank lines, none holding a newline. */
  function KeyLines(data: string): (keys: seq<string>)
    ensures forall x :: x in keys <==> x in Split(data, '\n') && !IsBlank(x)
    ensures forall k :: 0 <= k < |keys| ==> '\n' !in keys[k] && !IsBlank(keys[k])
  {
    var lines := Split(data, '\n');
    var keys := NonBlank(lines);
    forall k | 0 <= k < |keys|
      ensures '\n' !in keys[k] && !IsBlank(keys[k])
    {
      assert keys[k] in keys;
      var j :| 0 <= j < |lines| && lines[j] == keys[k];
    }
    keys
  }

  /** A usable private key: not empty, no newline, no white space at either end. */
  predicate IsKey(key: string)
  {
    key != [] && '\n' !in key && !IsWhiteSpace(key[0]) && !IsWhiteSpace(key[|key| - 1])
  }

  /** The private keys of a wallet file: each key line trimmed, in file order, and every one of
      them a usable key. */
  function Keys(data: string): (keys: seq<string>)
    ensures |keys| == |KeyLines(data)|
    ensures forall i :: 0 <= i < |keys| ==> keys[i] == Trim(KeyLines(data)[i]) && IsKey(keys[i])
  {
    var lines := KeyLines(data);
    forall i | 0 <= i < |lines|
      ensures IsKey(Trim(lines[i]))
    {
      TrimmedKey(lines[i]);
    }
    seq(|lines|, i requires 0 <= i < |lines| => Trim(lines[i]))
  }

  /** A non-blank line without a newline trims to a usable key. */
  lemma TrimmedKey(line: string)
    requires '\n' !in line && !IsBlank(line)
    ensures IsKey(Trim(line))
  {
    var lo, hi :| 0 <= lo <= hi <= |line| && Trim(line) == line[lo..hi];
    assert forall c :: c in line[lo..hi] ==> c in line;
  }

  /** Splitting keeps empty pieces between consecutive newlines. */
  lemma SplitExample()
    ensures Split("k1\n\nk2", '\n') == ["k1", "", "k2"]
  {
    var parts := ["k1", "", "k2"];
    assert Join(parts, '\n') == "k1\n\nk2" by {
      assert parts[1..] == ["", "k2"];
      assert parts[1..][1..] == ["k2"];
    }
    JoinSplit(parts, '\n');
  }

  /** A Windows line ending leaves a carriage return, which trimming removes. */
  lemma TrimExample()
    ensures Trim("k1\r") == "k1"
  {
    assert SpanStart("k1\r", 0) == 0;
    assert SpanEnd("k1\r", 0, 3) == 2;
    assert "k1\r"[0..2] == "k1";
  }
}
