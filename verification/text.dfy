/** The string operations of JavaScript that the sales logic relies on:
    `trim`, `toLowerCase` and `includes`. */
module Text {

  /** JavaScript white space and line terminators, the characters `String.prototype.trim` removes. */
  predicate IsWhite(c: char) {
    var n := c as int;
    || (0x09 <= n <= 0x0D)
    || n == 0x20 || n == 0xA0 || n == 0x1680
    || (0x2000 <= n <= 0x200A)
    || n == 0x2028 || n == 0x2029 || n == 0x202F || n == 0x205F
    || n == 0x3000 || n == 0xFEFF
  }

  /** A string that is empty after trimming. */
  predicate Blank(s: string) {
    forall i :: 0 <= i < |s| ==> IsWhite(s[i])
  }

  /** Number of white characters at the start of `s`. */
  function LeadingWhite(s: string): (n: nat)
    ensures n <= |s|
    ensures Blank(s[..n])
    ensures n < |s| ==> !IsWhite(s[n])
  {
    if |s| == 0 || !IsWhite(s[0]) then 0
    else
      var k := LeadingWhite(s[1..]);
      assert s[..k + 1] == [s[0]] + s[1..][..k];
      k + 1
  }

  /** Number of white characters at the end of `s`. */
  function TrailingWhite(s: string): (n: nat)
    ensures n <= |s|
    ensures Blank(s[|s| - n..])
    ensures n < |s| ==> !IsWhite(s[|s| - n - 1])
  {
    if |s| == 0 || !IsWhite(s[|s| - 1]) then 0
    else
      var t := s[..|s| - 1];
      var k := TrailingWhite(t);
      assert s[|s| - (k + 1)..] == t[|t| - k..] + [s[|s| - 1]];
      k + 1
  }

  /** `String.prototype.trim`: drop the white run at the start, then the one at the end. */
  function Trim(s: string): (r: string)
    ensures |r| <= |s|
  {
    var rest := s[LeadingWhite(s)..];
    rest[..|rest| - TrailingWhite(rest)]
  }

  /** What `Trim` returns is `s` with a white run cut from each end, and it neither starts
      nor ends with white space. */
  lemma TrimSpec(s: string)
    ensures var r := Trim(s);
      var i := LeadingWhite(s);
      && i + |r| <= |s|
      && r == s[i..i + |r|]
      && Blank(s[..i])
      && Blank(s[i + |r|..])
      && (|r| > 0 ==> !IsWhite(r[0]) && !IsWhite(r[|r| - 1]))
  {
    var i := LeadingWhite(s);
    var rest := s[i..];
    var j := TrailingWhite(rest);
    assert rest[|rest| - j..] == s[i + (|rest| - j)..];
  }

  /** Trimming yields the empty string exactly when the input is blank. */
  lemma TrimEmptyIffBlank(s: string)
    ensures Trim(s) == [] <==> Blank(s)
  {
    TrimSpec(s);
    var i := LeadingWhite(s);
    if Trim(s) == [] {
      forall k | 0 <= k < |s|
        ensures IsWhite(s[k])
      {
        assert s[k] == s[..i][k];
      }
    } else {
      assert !IsWhite(Trim(s)[0]);
      assert Trim(s)[0] == s[i];
    }
  }

  /** `toLowerCase` on one character: ASCII and Latin-1 capitals map to their small letters. */
  function LowerChar(c: char): (d: char)
    ensures 'A' <= c <= 'Z' ==> d as int == c as int + 32
    ensures !IsUpper(c) ==> d == c
  {
    if IsUpper(c) then (c as int + 32) as char else c
  }

  /** A capital letter in the ranges this model folds: A-Z and Latin-1 À-Þ except ×. */
  predicate IsUpper(c: char) {
    ('A' <= c <= 'Z') || (0xC0 <= c as int <= 0xDE && c as int != 0xD7)
  }

  /** `String.prototype.toLowerCase`, character by character. */
  function ToLower(s: string): (r: string)
    ensures |r| == |s|
    ensures forall i :: 0 <= i < |s| ==> r[i] == LowerChar(s[i])
  {
    if |s| == 0 then [] else [LowerChar(s[0])] + ToLower(s[1..])
  }

  /** Lower-casing leaves no capital behind, so doing it twice changes nothing. */
  lemma ToLowerIdempotent(s: string)
    ensures forall i :: 0 <= i < |s| ==> !IsUpper(ToLower(s)[i])
    ensures ToLower(ToLower(s)) == ToLower(s)
  {
  }

  /** `needle` occurs in `hay` starting at index `i`. */
  predicate OccursAt(hay: string, needle: string, i: int) {
    0 <= i && i + |needle| <= |hay| && hay[i..i + |needle|] == needle
  }

  /** `String.prototype.includes`, scanning left to right. */
  function Includes(hay: string, needle: string): bool
    decreases |hay|
  {
    if |needle| > |hay| then false
    else if hay[..|needle|] == needle then true
    else if |hay| == 0 then false
    else Includes(hay[1..], needle)
  }

  /** The scan agrees with the definition of a substring occurrence. */
  lemma {:induction false} IncludesSpec(hay: string, needle: string)
    ensures Includes(hay, needle) <==> exists i :: OccursAt(hay, needle, i)
    decreases |hay|
  {
    if |needle| > |hay| {
    } else if hay[..|needle|] == needle {
      assert OccursAt(hay, needle, 0);
    } else if |hay| == 0 {
    } else {
      IncludesSpec(hay[1..], needle);
      if Includes(hay[1..], needle) {
        var i :| OccursAt(hay[1..], needle, i);
        assert hay[1..][i..i + |needle|] == hay[i + 1..i + 1 + |needle|];
        assert OccursAt(hay, needle, i + 1);
      } else {
        forall i | OccursAt(hay, needle, i)
          ensures false
        {
          assert i != 0;
          assert hay[1..][i - 1..i - 1 + |needle|] == hay[i..i + |needle|];
          assert OccursAt(hay[1..], needle, i - 1);
        }
      }
    }
  }
}
