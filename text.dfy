/**
 * Character classes and string helpers shared by the normaliser, the
 * sentence splitter, the tokeniser and the answer composer.
 *
 * Python's regular-expression classes `\s` and `\w` and the method
 * `str.lower` are modelled here as explicit character-level functions.
 * `IsSpace` is the full set of code points for which `str.isspace()` holds;
 * `IsWordChar` and `Lower` are restricted to ASCII.
 */
module Text {

  /** The characters matched by `\s` (and stripped by `str.strip()`). */
  predicate IsSpace(c: char) {
    c == ' ' || c == '\t' || c == '\n' || c == '\r' || c == '\U{0B}' || c == '\U{0C}'
    || ('\U{1C}' <= c <= '\U{1F}') || c == '\U{85}' || c == '\U{A0}' || c == '\U{1680}'
    || ('\U{2000}' <= c <= '\U{200A}') || c == '\U{2028}' || c == '\U{2029}'
    || c == '\U{202F}' || c == '\U{205F}' || c == '\U{3000}'
  }

  /** The single blank that the normaliser uses as its only separator. */
  predicate IsBlank(c: char) {
    c == ' '
  }

  /** The characters matched by `\w`: letters, digits and the underscore. */
  predicate IsWordChar(c: char) {
    ('a' <= c <= 'z') || ('A' <= c <= 'Z') || ('0' <= c <= '9') || c == '_'
  }

  /** The punctuation the normaliser keeps: `. , ; : ! ? ( ) - ' "`. */
  predicate IsKeptPunctuation(c: char) {
    c == '.' || c == ',' || c == ';' || c == ':' || c == '!' || c == '?'
    || c == '(' || c == ')' || c == '-' || c == '\'' || c == '"'
  }

  /** The characters that end a sentence. */
  predicate IsTerminator(c: char) {
    c == '.' || c == '!' || c == '?'
  }

  /** The whitelist of the normaliser's second substitution. */
  predicate IsAllowed(c: char) {
    IsWordChar(c) || IsSpace(c) || IsKeptPunctuation(c)
  }

  lemma WordCharsAreNotSpaces(c: char)
    ensures IsWordChar(c) ==> !IsSpace(c) && IsAllowed(c)
    ensures IsBlank(c) ==> IsSpace(c) && !IsWordChar(c)
    ensures IsKeptPunctuation(c) ==> !IsSpace(c) && !IsWordChar(c)
  {
  }

  function LowerChar(c: char): (r: char)
    ensures IsWordChar(r) <==> IsWordChar(c)
    ensures !('A' <= r <= 'Z')
  {
    if 'A' <= c <= 'Z' then (c as int - 'A' as int + 'a' as int) as char else c
  }

  /** `str.lower()`, character by character. */
  function Lower(s: string): (r: string)
    ensures |r| == |s|
    ensures forall i :: 0 <= i < |s| ==> r[i] == LowerChar(s[i])
  {
    if s == [] then [] else [LowerChar(s[0])] + Lower(s[1..])
  }

  /** `needle` occurs in `hay` starting at position `i`. */
  predicate OccursAt(hay: string, needle: string, i: nat) {
    i + |needle| <= |hay| && hay[i..i + |needle|] == needle
  }

  /** `needle in hay` for strings: `needle` occurs as a contiguous piece of `hay`. */
  function Contains(hay: string, needle: string): (b: bool)
    ensures b <==> exists i: nat :: OccursAt(hay, needle, i)
    decreases |hay|
  {
    if needle <= hay then
      assert OccursAt(hay, needle, 0);
      true
    else if |hay| <= |needle| then
      false
    else
      var b := Contains(hay[1..], needle);
      assert forall i: nat :: OccursAt(hay, needle, i + 1) <==> OccursAt(hay[1..], needle, i) by {
        forall i: nat ensures OccursAt(hay, needle, i + 1) <==> OccursAt(hay[1..], needle, i) {
          if i + 1 + |needle| <= |hay| {
            var tail := hay[1..];
            assert |tail| == |hay| - 1;
            var a, b := hay[i + 1..i + 1 + |needle|], tail[i..i + |needle|];
            assert forall k :: 0 <= k < |a| ==> a[k] == b[k];
          }
        }
      }
      assert !OccursAt(hay, needle, 0);
      assert (exists i: nat :: OccursAt(hay, needle, i)) ==> exists i: nat :: OccursAt(hay[1..], needle, i) by {
        if exists i: nat :: OccursAt(hay, needle, i) {
          var i: nat :| OccursAt(hay, needle, i);
          assert i > 0;
          assert OccursAt(hay[1..], needle, i - 1);
        }
      }
      b
  }

  /** `sep.join(parts)`. */
  function JoinWith(sep: string, parts: seq<string>): (r: string)
    ensures |parts| == 1 ==> r == parts[0]
    decreases |parts|
  {
    if |parts| == 0 then ""
    else if |parts| == 1 then parts[0]
    else JoinWith(sep, parts[..|parts| - 1]) + sep + parts[|parts| - 1]
  }

  /** The decimal rendering of a natural number, as `str(n)` gives it. */
  function NatToString(n: nat): (r: string)
    ensures |r| > 0
    ensures forall i :: 0 <= i < |r| ==> '0' <= r[i] <= '9'
    decreases n
  {
    if n < 10 then [Digit(n)] else NatToString(n / 10) + [Digit(n % 10)]
  }

  function Digit(d: nat): (c: char)
    requires d < 10
    ensures '0' <= c <= '9' && c as int - '0' as int == d
  {
    ('0' as int + d) as char
  }

  /** Reads a string of decimal digits back as a number. */
  function ParseNat(s: string): nat
    requires forall i :: 0 <= i < |s| ==> '0' <= s[i] <= '9'
  {
    if s == [] then 0 else 10 * ParseNat(s[..|s| - 1]) + (s[|s| - 1] as int - '0' as int)
  }

  lemma {:induction false} ParseNatToString(n: nat)
    ensures ParseNat(NatToString(n)) == n
    decreases n
  {
    var r := NatToString(n);
    if n >= 10 {
      ParseNatToString(n / 10);
      assert r[..|r| - 1] == NatToString(n / 10);
    }
  }

  /** `str(n)` for a Python int that may be negative. */
  function IntToString(n: int): (r: string)
    ensures |r| > 0
  {
    if n < 0 then "-" + NatToString(-n) else NatToString(n)
  }

  /** The middle piece of a three-part concatenation occurs right after the first. */
  lemma OccursInMiddle(a: string, b: string, c: string)
    ensures OccursAt(a + b + c, b, |a|)
  {
    var h := a + b + c;
    assert forall k :: 0 <= k < |b| ==> h[|a| + k] == b[k];
    assert h[|a|..|a| + |b|] == b;
  }

  /** An occurrence inside an occurrence is an occurrence. */
  lemma OccursTrans(hay: string, mid: string, needle: string, i: nat, j: nat)
    requires OccursAt(hay, mid, i) && OccursAt(mid, needle, j)
    ensures OccursAt(hay, needle, i + j)
  {
    assert forall k :: 0 <= k < |needle| ==> hay[i + j + k] == mid[j + k] == needle[k];
    assert hay[i + j..i + j + |needle|] == needle;
  }

  /** Every part occurs in the join of the parts. */
  lemma {:induction false} JoinHasPart(sep: string, parts: seq<string>, k: nat)
    requires k < |parts|
    ensures Contains(JoinWith(sep, parts), parts[k])
    decreases |parts|
  {
    if |parts| > 1 {
      var n := |parts| - 1;
      var front := parts[..n];
      var j := JoinWith(sep, front);
      assert JoinWith(sep, parts) == j + sep + parts[n];
      if k == n {
        OccursInMiddle(j + sep, parts[n], "");
        assert j + sep + parts[n] + "" == j + sep + parts[n];
      } else {
        assert parts[k] == front[k];
        JoinHasPart(sep, front, k);
        var i: nat :| OccursAt(j, parts[k], i);
        OccursInMiddle("", j, sep + parts[n]);
        assert "" + j + (sep + parts[n]) == j + sep + parts[n];
        OccursTrans(j + sep + parts[n], j, parts[k], 0, i);
      }
    } else {
      assert OccursAt(parts[0], parts[0], 0);
    }
  }
}
