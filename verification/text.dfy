/** The string operations the product search uses: `toLowerCase` (over ASCII letters),
    `trim` and `includes`. */
module Text {

  /** A character `String.prototype.trim` removes: the ECMAScript WhiteSpace and
      LineTerminator characters. */
  predicate IsSpace(c: char) {
    || c == ' ' || c == '\t' || c == '\n' || c == '\r' || c == '\U{0B}' || c == '\U{0C}'
    || c == '\U{A0}' || c == '\U{1680}' || ('\U{2000}' <= c <= '\U{200A}')
    || c == '\U{2028}' || c == '\U{2029}' || c == '\U{202F}' || c == '\U{205F}'
    || c == '\U{3000}' || c == '\U{FEFF}'
  }

  predicate IsUpper(c: char) {
    'A' <= c <= 'Z'
  }

  function LowerChar(c: char): (d: char)
    ensures !IsUpper(d)
    ensures IsUpper(c) ==> d as int == c as int + 32
    ensures !IsUpper(c) ==> d == c
  {
    if IsUpper(c) then (c as int + 32) as char else c
  }

  /** `toLowerCase`, restricted to the ASCII letters. */
  function ToLower(s: string): (r: string)
    ensures |r| == |s|
    ensures forall i :: 0 <= i < |s| ==> r[i] == LowerChar(s[i])
  {
    seq(|s|, i requires 0 <= i < |s| => LowerChar(s[i]))
  }

  /** Lower-casing twice is lower-casing once. */
  lemma ToLowerIdempotent(s: string)
    ensures ToLower(ToLower(s)) == ToLower(s)
  {
  }

  /** Lower-casing keeps white space where it is. */
  lemma ToLowerKeepsSpace(s: string)
    ensures forall i :: 0 <= i < |s| ==> (IsSpace(ToLower(s)[i]) <==> IsSpace(s[i]))
  {
  }

  /** Drops the white space at the front. */
  function TrimStart(s: string): (r: string)
    ensures |r| <= |s| && r == s[|s| - |r|..]
    ensures forall k :: 0 <= k < |s| - |r| ==> IsSpace(s[k])
    ensures r != [] ==> !IsSpace(r[0])
  {
    if s != [] && IsSpace(s[0]) then TrimStart(s[1..]) else s
  }

  /** Drops the white space at the back. */
  function TrimEnd(s: string): (r: string)
    ensures |r| <= |s| && r == s[..|r|]
    ensures forall k :: |r| <= k < |s| ==> IsSpace(s[k])
    ensures r != [] ==> !IsSpace(r[|r| - 1])
  {
    if s != [] && IsSpace(s[|s| - 1]) then TrimEnd(s[..|s| - 1]) else s
  }

  /** `String.prototype.trim`: the run of `s` left once the white space at both ends
      is removed. */
  function Trim(s: string): (r: string)
    ensures |r| <= |TrimStart(s)| <= |s|
    ensures r == s[|s| - |TrimStart(s)|..][..|r|]
    ensures forall k :: 0 <= k < |s| - |TrimStart(s)| ==> IsSpace(s[k])
    ensures forall k :: |s| - |TrimStart(s)| + |r| <= k < |s| ==> IsSpace(s[k])
    ensures r != [] ==> !IsSpace(r[0]) && !IsSpace(r[|r| - 1])
    ensures r == [] <==> forall k :: 0 <= k < |s| ==> IsSpace(s[k])
    ensures forall c :: c in r ==> c in s
  {
    TrimEnd(TrimStart(s))
  }

  /** Lower-casing and then trimming leaves no upper-case letter and no white space at
      either end, and leaves nothing exactly when the text is all white space. */
  lemma {:induction false} LowerTrimmed(raw: string)
    ensures |Trim(ToLower(raw))| <= |raw|
    ensures forall k :: 0 <= k < |Trim(ToLower(raw))| ==> !IsUpper(Trim(ToLower(raw))[k])
    ensures Trim(ToLower(raw)) == [] <==> forall k :: 0 <= k < |raw| ==> IsSpace(raw[k])
    ensures Trim(ToLower(raw)) != [] ==>
      !IsSpace(Trim(ToLower(raw))[0]) && !IsSpace(Trim(ToLower(raw))[|Trim(ToLower(raw))| - 1])
  {
    ToLowerKeepsSpace(raw);
    var lower := ToLower(raw);
    var t := Trim(lower);
    forall k | 0 <= k < |t| ensures !IsUpper(t[k]) {
      assert t[k] in lower;
    }
  }

  /** `needle` occurs in `hay` starting at position `i`. */
  predicate OccursAt(hay: string, needle: string, i: nat) {
    i + |needle| <= |hay| && hay[i..i + |needle|] == needle
  }

  /** `String.prototype.includes`. */
  function Contains(hay: string, needle: string): (b: bool)
    ensures b <==> exists i: nat :: OccursAt(hay, needle, i)
    decreases |hay|
  {
    if needle <= hay then
      assert OccursAt(hay, needle, 0);
      true
    else if hay == [] then
      false
    else
      var b := Contains(hay[1..], needle);
      if b then
        assert exists i: nat :: OccursAt(hay, needle, i) by {
          var i: nat :| OccursAt(hay[1..], needle, i);
          assert OccursAt(hay, needle, i + 1);
        }
        true
      else
        assert forall i: nat :: OccursAt(hay, needle, i) ==> i > 0 && OccursAt(hay[1..], needle, i - 1);
        false
  }
}
