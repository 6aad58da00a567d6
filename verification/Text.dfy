/** String operations the services share. A `string` is a sequence of runes. */
module Text {

  datatype Option<+T> = None | Some(value: T)

  /** Go's unicode.IsSpace. */
  predicate IsSpace(c: char) {
    var n := c as int;
    (0x09 <= n <= 0x0D) || n == 0x20 || n == 0x85 || n == 0xA0 || n == 0x1680 || (0x2000 <= n <= 0x200A)
    || n == 0x2028 || n == 0x2029 || n == 0x202F || n == 0x205F || n == 0x3000
  }

  /** Go's unicode.IsControl. */
  predicate IsControl(c: char) {
    var n := c as int;
    n <= 0x1F || 0x7F <= n <= 0x9F
  }

  function TrimLeft(s: string): string {
    if s != [] && IsSpace(s[0]) then TrimLeft(s[1..]) else s
  }

  function TrimRight(s: string): string {
    if s != [] && IsSpace(s[|s| - 1]) then TrimRight(s[..|s| - 1]) else s
  }

  /** Go's strings.TrimSpace. */
  function Trim(s: string): string {
    TrimRight(TrimLeft(s))
  }

  /** len(s): the number of bytes of the UTF-8 encoding. */
  function ByteLen(s: string): nat {
    if s == [] then 0 else RuneBytes(s[0]) + ByteLen(s[1..])
  }

  function RuneBytes(c: char): nat {
    var n := c as int;
    if n < 0x80 then 1 else if n < 0x800 then 2 else if n < 0x10000 then 3 else 4
  }

  predicate ContainsLineBreak(s: string) {
    '\n' in s || '\r' in s
  }

  lemma {:induction false} TrimLeftParts(s: string) returns (cut: nat)
    ensures cut <= |s| && TrimLeft(s) == s[cut..]
    ensures forall i :: 0 <= i < cut ==> IsSpace(s[i])
    ensures cut < |s| ==> !IsSpace(s[cut])
  {
    if s != [] && IsSpace(s[0]) {
      var rest := TrimLeftParts(s[1..]);
      cut := rest + 1;
      forall i | 0 <= i < cut ensures IsSpace(s[i]) {
        if i > 0 { assert s[i] == s[1..][i - 1]; }
      }
    } else {
      cut := 0;
    }
  }

  lemma {:induction false} TrimRightParts(s: string) returns (keep: nat)
    ensures keep <= |s| && TrimRight(s) == s[..keep]
    ensures forall i :: keep <= i < |s| ==> IsSpace(s[i])
    ensures keep > 0 ==> !IsSpace(s[keep - 1])
  {
    if s != [] && IsSpace(s[|s| - 1]) {
      keep := TrimRightParts(s[..|s| - 1]);
    } else {
      keep := |s|;
    }
  }

  /** Trim removes all white space at both ends and nothing else. */
  lemma TrimParts(s: string) returns (lo: nat, hi: nat)
    ensures lo <= hi <= |s| && Trim(s) == s[lo..hi]
    ensures lo < hi ==> !IsSpace(s[lo]) && !IsSpace(s[hi - 1])
    ensures forall i :: 0 <= i < |s| && !(lo <= i < hi) ==> IsSpace(s[i])
  {
    lo := TrimLeftParts(s);
    var keep := TrimRightParts(s[lo..]);
    hi := lo + keep;
    assert s[lo..][..keep] == s[lo..hi];
    forall i | 0 <= i < |s| && !(lo <= i < hi) ensures IsSpace(s[i]) {
      if i >= hi { assert s[i] == s[lo..][i - lo]; }
    }
  }

  /** A key that starts with a prefix free of white space keeps it when trimmed. */
  lemma TrimKeepsPrefix(prefix: string, s: string)
    requires prefix <= s && forall i :: 0 <= i < |prefix| ==> !IsSpace(prefix[i])
    ensures prefix <= Trim(s)
  {
    var lo, hi := TrimParts(s);
    if prefix != [] {
      assert !IsSpace(s[0]);
      assert lo == 0;
      assert !IsSpace(s[|prefix| - 1]);
      assert hi >= |prefix|;
    }
  }
}
