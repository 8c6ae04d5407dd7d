// What a peer accepts in identifiers, versions and colors.
module WireRules {
  import opened Basics

  const I64_MAX := 0x7FFF_FFFF_FFFF_FFFF

  predicate IsWhitespace(c: char)
  {
    var x := c as int;
    || 9 <= x <= 13 || x == 32 || x == 0x85 || x == 0xA0 || x == 0x1680 || 0x2000 <= x <= 0x200A
    || x == 0x2028 || x == 0x2029 || x == 0x202F || x == 0x205F || x == 0x3000
  }

  /** Some character is not white space. */
  predicate HasText(value: string)
  {
    exists i :: 0 <= i < |value| && !IsWhitespace(value[i])
  }

  predicate IsIdentifier(value: string)
  {
    HasText(value) && Utf8Len(value) <= 128 && NoControl(value)
  }

  predicate IsVersion(revision: nat, device: string)
  {
    0 < revision <= I64_MAX && IsIdentifier(device)
  }

  predicate IsHex(c: char)
  {
    '0' <= c <= '9' || 'a' <= c <= 'f' || 'A' <= c <= 'F'
  }

  predicate IsColor(color: string)
  {
    && (Utf8Len(color) == 4 || Utf8Len(color) == 7 || Utf8Len(color) == 9)
    && color[0] == '#' && forall i :: 1 <= i < |color| ==> IsHex(color[i])
  }

  // ---------- The rules in characters ----------

  /** Printable ASCII, blanks included. */
  predicate Printable(s: string)
  {
    forall i :: 0 <= i < |s| ==> 0x20 <= s[i] as int < 0x7F
  }

  predicate NotBlank(s: string)
  {
    exists i :: 0 <= i < |s| && s[i] != ' '
  }

  lemma {:induction false} TextLength(s: string)
    ensures |s| <= Utf8Len(s) <= 4 * |s|
    ensures Utf8Len(s) == |s| <==> forall i :: 0 <= i < |s| ==> s[i] as int < 0x80
  {
    if s != [] {
      TextLength(s[1..]);
      assert forall i :: 0 < i < |s| ==> s[i] == s[1..][i - 1];
    }
  }

  lemma PrintableText(s: string)
    requires Printable(s)
    ensures Utf8Len(s) == |s| && NoControl(s) && (HasText(s) <==> NotBlank(s))
    ensures IsIdentifier(s) <==> |s| <= 128 && NotBlank(s)
  {
    TextLength(s);
    if NotBlank(s) {
      var i :| 0 <= i < |s| && s[i] != ' ';
      assert !IsWhitespace(s[i]);
    }
    if HasText(s) {
      var i :| 0 <= i < |s| && !IsWhitespace(s[i]);
      assert s[i] != ' ';
    }
  }

  /** A color is `#` and three, six or eight hexadecimal digits. */
  lemma ColorIsHex(s: string)
    ensures IsColor(s) <==>
              && (|s| == 4 || |s| == 7 || |s| == 9) && s[0] == '#'
              && forall i :: 1 <= i < |s| ==> '0' <= s[i] <= '9' || 'a' <= s[i] <= 'f' || 'A' <= s[i] <= 'F'
  {
    TextLength(s);
    if s != [] && s[0] == '#' && forall i :: 1 <= i < |s| ==> IsHex(s[i]) {
      assert forall i :: 0 <= i < |s| ==> s[i] as int < 0x80;
    }
  }
}
