/** The string primitives the searches rely on: lower-casing and substring inclusion.
    Lower-casing folds the ASCII letters only; full Unicode case mapping is not modelled. */
module Text {

  predicate IsUpper(c: char) {
    'A' <= c <= 'Z'
  }

  /** Lower-cases one character; characters other than 'A'..'Z' are left alone. */
  function LowerChar(c: char): (d: char)
    ensures !IsUpper(d)
    ensures !IsUpper(c) ==> d == c
    ensures IsUpper(c) ==> 'a' <= d <= 'z' && d as int - 'a' as int == c as int - 'A' as int
  {
    if IsUpper(c) then (c as int - 'A' as int + 'a' as int) as char else c
  }

  /** `s.toLowerCase()`, restricted to ASCII letters. */
  function Lower(s: string): (r: string)
    ensures |r| == |s|
    ensures forall i :: 0 <= i < |s| ==> r[i] == LowerChar(s[i])
    ensures forall i :: 0 <= i < |r| ==> !IsUpper(r[i])
  {
    seq(|s|, i requires 0 <= i < |s| => LowerChar(s[i]))
  }

  /** Lower-casing twice is lower-casing once. */
  lemma LowerIdempotent(s: string)
    ensures Lower(Lower(s)) == Lower(s)
  {
    assert forall i :: 0 <= i < |s| ==> LowerChar(Lower(s)[i]) == Lower(s)[i];
  }

  /** Lower-casing commutes with concatenation. */
  lemma LowerConcat(a: string, b: string)
    ensures Lower(a + b) == Lower(a) + Lower(b)
  {
  }

  /** `hay.includes(needle)`: the needle occurs in the haystack at some position.
      The empty needle occurs everywhere. */
  function Includes(hay: string, needle: string): (r: bool)
    ensures r <==> exists i :: 0 <= i <= |hay| && needle <= hay[i..]
    decreases |hay|
  {
    if needle <= hay then
      assert hay[0..] == hay;
      true
    else if |hay| == 0 then
      false
    else
      var r := Includes(hay[1..], needle);
      assert forall i :: 1 <= i <= |hay| ==> hay[1..][i - 1..] == hay[i..];
      r
  }

  /** A haystack that contains a string contains every prefix of it. */
  lemma IncludesPrefix(hay: string, needle: string, more: string)
    requires Includes(hay, needle + more)
    ensures Includes(hay, needle)
  {
    var i :| 0 <= i <= |hay| && needle + more <= hay[i..];
    assert needle <= hay[i..];
  }
}
