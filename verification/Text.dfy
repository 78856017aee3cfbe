/** The few string operations the services rely on. */
module Text {

  /** QChar::isSpace. */
  predicate IsSpace(c: char) {
    var n := c as int;
    || n == 0x20 || (0x09 <= n <= 0x0D) || n == 0x85 || n == 0xA0 || n == 0x1680
    || (0x2000 <= n <= 0x200A) || n == 0x2028 || n == 0x2029 || n == 0x202F || n == 0x205F || n == 0x3000
  }

  /** QString::trimmed. */
  function Trim(s: string): (t: string)
    ensures t != "" ==> !IsSpace(t[0]) && !IsSpace(t[|t| - 1])
    ensures |t| <= |s|
    decreases |s|
  {
    if s == "" then ""
    else if IsSpace(s[0]) then Trim(s[1..])
    else if IsSpace(s[|s| - 1]) then Trim(s[..|s| - 1])
    else s
  }

  /** Trimming cuts spaces off both ends and nothing else. */
  lemma {:induction false} TrimExact(s: string)
    ensures exists i: nat, j: nat :: i <= j <= |s| && TrimmedAt(s, i, j)
    decreases |s|
  {
    if s == "" || (!IsSpace(s[0]) && !IsSpace(s[|s| - 1])) {
      assert s[0..|s|] == s;
      assert TrimmedAt(s, 0, |s|);
    } else if IsSpace(s[0]) {
      TrimExact(s[1..]);
      var i: nat, j: nat :| i <= j <= |s| - 1 && TrimmedAt(s[1..], i, j);
      assert forall k :: 0 < k < |s| ==> s[k] == s[1..][k - 1];
      assert s[1..][i..j] == s[i + 1..j + 1];
      assert TrimmedAt(s, i + 1, j + 1);
    } else {
      TrimExact(s[..|s| - 1]);
      var i: nat, j: nat :| i <= j <= |s| - 1 && TrimmedAt(s[..|s| - 1], i, j);
      assert forall k :: 0 <= k < |s| - 1 ==> s[k] == s[..|s| - 1][k];
      assert s[..|s| - 1][i..j] == s[i..j];
      assert TrimmedAt(s, i, j);
    }
  }

  ghost predicate TrimmedAt(s: string, i: nat, j: nat)
    requires i <= j <= |s|
  {
    && Trim(s) == s[i..j]
    && (forall k :: 0 <= k < i || j <= k < |s| ==> IsSpace(s[k]))
    && (i < j ==> !IsSpace(s[i]) && !IsSpace(s[j - 1]))
  }

  predicate StartsWith(s: string, prefix: string) {
    prefix <= s
  }

  /** QString::size counts UTF-16 code units. */
  function Utf16Size(s: string): nat {
    if s == "" then 0 else Utf16Size(s[..|s| - 1]) + (if s[|s| - 1] as int >= 0x10000 then 2 else 1)
  }

  function Utf8Size(s: string): nat {
    if s == "" then 0
    else
      var n := s[|s| - 1] as int;
      Utf8Size(s[..|s| - 1]) + (if n < 0x80 then 1 else if n < 0x800 then 2 else if n < 0x10000 then 3 else 4)
  }

  /** No text is longer in UTF-8 than three bytes per UTF-16 unit. */
  lemma {:induction false} Utf8PerUnit(s: string)
    ensures Utf8Size(s) <= 3 * Utf16Size(s)
  {
    if s != "" { Utf8PerUnit(s[..|s| - 1]); }
  }

  /** Text order, first differing character first. */
  predicate Less(a: string, b: string) {
    if b == "" then false
    else if a == "" then true
    else if a[0] != b[0] then a[0] < b[0]
    else Less(a[1..], b[1..])
  }

  lemma {:induction false} LessDecides(a: string, b: string)
    ensures a != b ==> (Less(a, b) <==> !Less(b, a))
    ensures a == b ==> !Less(a, b)
  {
    if a != "" && b != "" && a[0] == b[0] {
      LessDecides(a[1..], b[1..]);
      assert a == [a[0]] + a[1..] && b == [b[0]] + b[1..];
    }
  }

  lemma {:induction false} LessTransitive(a: string, b: string, c: string)
    requires !Less(b, a) && !Less(c, b)
    ensures !Less(c, a)
  {
    if a != "" && b != "" && c != "" && a[0] == b[0] == c[0] {
      LessTransitive(a[1..], b[1..], c[1..]);
    }
  }
}
