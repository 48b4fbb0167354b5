/** What several parts of the program do with strings. */
module Texts {
  /** White space as the program's strings know it. */
  predicate IsSpace(c: char) {
    || '\t' <= c <= '\r' || 0x1c as char <= c <= ' '
    || c in {0x85 as char, 0xa0 as char, 0x1680 as char, 0x2028 as char, 0x2029 as char}
    || c in {0x202f as char, 0x205f as char, 0x3000 as char}
    || 0x2000 as char <= c <= 0x200a as char
  }

  function LStrip(s: string): string {
    if s != [] && IsSpace(s[0]) then LStrip(s[1..]) else s
  }

  function RStrip(s: string): (r: string)
    ensures r <= s && (r != "" ==> !IsSpace(r[|r| - 1]))
    ensures forall k :: |r| <= k < |s| ==> IsSpace(s[k])
  {
    if s != [] && IsSpace(s[|s| - 1]) then RStrip(s[..|s| - 1]) else s
  }

  function Strip(s: string): string {
    RStrip(LStrip(s))
  }

  lemma {:induction false} LStripIs(s: string)
    ensures var r := LStrip(s);
            && |r| <= |s| && r == s[|s| - |r|..] && (r != "" ==> !IsSpace(r[0]))
            && forall k :: 0 <= k < |s| - |r| ==> IsSpace(s[k])
  {
    hide IsSpace;
    if s != [] && IsSpace(s[0]) {
      var r := LStrip(s[1..]);
      LStripIs(s[1..]);
      assert r == s[|s| - |r|..];
      forall k | 0 < k < |s| - |r| ensures IsSpace(s[k]) {
        assert s[k] == s[1..][k - 1];
      }
    }
  }

  /** What is left is the text between the white space at either end. */
  lemma StripIs(s: string) returns (i: nat, j: nat)
    ensures i <= j <= |s| && Strip(s) == s[i..j]
    ensures (forall k :: 0 <= k < i ==> IsSpace(s[k])) && forall k :: j <= k < |s| ==> IsSpace(s[k])
    ensures i < j ==> !IsSpace(s[i]) && !IsSpace(s[j - 1])
  {
    LStripIs(s);
    hide IsSpace, LStrip, RStrip;
    var left := LStrip(s);
    var r := RStrip(left);
    i := |s| - |left|;
    j := i + |r|;
    assert forall k :: j <= k < |s| ==> s[k] == left[k - i];
    assert r == left[..|r|];
  }

  predicate IsNameStart(c: char) {
    'a' <= c <= 'z' || 'A' <= c <= 'Z' || c == '_'
  }

  function Join(parts: seq<string>, sep: string): string {
    if parts == [] then ""
    else if |parts| == 1 then parts[0]
    else Join(parts[..|parts| - 1], sep) + sep + parts[|parts| - 1]
  }

  lemma JoinSnoc(parts: seq<string>, last: string, sep: string)
    ensures Join(parts + [last], sep) == if parts == [] then last else Join(parts, sep) + sep + last
  {
    assert (parts + [last])[..|parts|] == parts;
  }

  lemma {:induction false} JoinCons(first: string, rest: seq<string>, sep: string)
    requires rest != []
    ensures Join([first] + rest, sep) == first + sep + Join(rest, sep)
  {
    var n := |rest| - 1;
    assert [first] + rest == [first] + rest[..n] + [rest[n]];
    assert rest == rest[..n] + [rest[n]];
    JoinSnoc([first] + rest[..n], rest[n], sep);
    JoinSnoc(rest[..n], rest[n], sep);
    if n == 0 {
      assert [first] + rest[..n] == [first];
    } else {
      JoinCons(first, rest[..n], sep);
    }
  }
}
