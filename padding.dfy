/** The password padding codec of the keychain: `pad` fills a password out
    with a NUL terminator and NUL filler to a fixed number of characters,
    and `unpad` cuts the filler off again at the first NUL.

    A Dafny `char` is a Unicode scalar value. For strings of Basic
    Multilingual Plane characters outside the surrogate range, `|s|` is the
    source's `s.length`; a character outside that plane is one `char` here
    but two UTF-16 units there. */
module Padding {

  /** The longest password the keychain is meant to hold, in characters. */
  const MaxPasswordLength: nat := 64

  /** The terminator and filler character. */
  const Nul: char := '\0'

  /** `s.padEnd(targetLength, fill)` for a one-character `fill`: the string
      itself when it is already long enough, otherwise the string followed by
      as many copies of `fill` as make it `targetLength` long. */
  function PadEnd(s: string, targetLength: nat, fill: char): (r: string)
    ensures |r| == if |s| < targetLength then targetLength else |s|
    ensures r[..|s|] == s
    ensures forall i :: |s| <= i < |r| ==> r[i] == fill
  {
    if |s| < targetLength then s + seq(targetLength - |s|, _ => fill) else s
  }

  /** `pad(password)`: the password, one NUL, then NUL filler up to
      `MaxPasswordLength` characters. */
  function Pad(password: string): (r: string)
  {
    PadEnd(password + [Nul], MaxPasswordLength, Nul)
  }

  /** `s.indexOf(c)`: the index of the first `c` in `s`, or -1 when `s` holds
      no `c`. */
  function IndexOf(s: string, c: char): (k: int)
    ensures -1 <= k < |s|
    ensures k == -1 ==> forall j :: 0 <= j < |s| ==> s[j] != c
    ensures 0 <= k ==> s[k] == c && forall j :: 0 <= j < k ==> s[j] != c
  {
    if |s| == 0 then -1
    else if s[0] == c then 0
    else
      var k := IndexOf(s[1..], c);
      if k == -1 then -1 else k + 1
  }

  /** `unpad(paddedPassword)`: the part of the string before its first NUL,
      or the whole string when it holds none. The result is the unique prefix
      of `s` that holds no NUL and is followed in `s` by a NUL or by nothing
      (see `UnpadUnique`). */
  function Unpad(s: string): (r: string)
    ensures |r| <= |s| && r == s[..|r|]
    ensures Nul !in r
    ensures |r| == |s| || s[|r|] == Nul
  {
    var firstNull := IndexOf(s, Nul);
    if firstNull == -1 then s else s[..firstNull]
  }

  /** The padded password starts with the password followed by one NUL. */
  lemma PadStartsWithPassword(password: string)
    ensures |Pad(password)| > |password|
    ensures Pad(password)[..|password|] == password
    ensures Pad(password)[|password|] == Nul
  {
  }

  /** Every character of the padded password from the password's end on is a NUL. */
  lemma PadTailIsNul(password: string)
    ensures forall i :: |password| <= i < |Pad(password)| ==> Pad(password)[i] == Nul
  {
  }

  /** The padded length: `MaxPasswordLength` for every password of at most
      `MaxPasswordLength - 1` characters, one more than the password's
      length for every longer one. */
  lemma PadLength(password: string)
    ensures |password| < MaxPasswordLength ==> |Pad(password)| == MaxPasswordLength
    ensures |password| >= MaxPasswordLength ==> |Pad(password)| == |password| + 1
  {
  }

  /** Length hiding: two passwords of at most `MaxPasswordLength - 1`
      characters pad to strings of the same length. */
  lemma PadHidesLength(p: string, q: string)
    requires |p| < MaxPasswordLength && |q| < MaxPasswordLength
    ensures |Pad(p)| == |Pad(q)|
  {
  }

  /** A string without NUL is its own unpadding. */
  lemma UnpadWithoutNul(s: string)
    requires Nul !in s
    ensures Unpad(s) == s
  {
  }

  /** The characterisation in `Unpad`'s contract pins the result down: any
      prefix of `s` without NUL that is followed by a NUL or ends `s` is
      `Unpad(s)`. */
  lemma UnpadUnique(s: string, t: string)
    requires |t| <= |s| && t == s[..|t|]
    requires Nul !in t
    requires |t| == |s| || s[|t|] == Nul
    ensures t == Unpad(s)
  {
  }

  /** Round trip: unpadding a padded password that holds no NUL gives the
      password back. */
  lemma UnpadPad(password: string)
    requires Nul !in password
    ensures Unpad(Pad(password)) == password
  {
  }

  /** Unpadding twice is unpadding once. */
  lemma UnpadIdempotent(s: string)
    ensures Unpad(Unpad(s)) == Unpad(s)
  {
  }

  /** As written, a password of exactly `MaxPasswordLength` characters, which
      the constant's documentation admits, pads to one character more than
      every shorter password: the padded length tells it apart. */
  lemma PadLeaksMaxLength(p: string, q: string)
    requires |p| == MaxPasswordLength && |q| < MaxPasswordLength
    ensures |Pad(p)| == MaxPasswordLength + 1
    ensures |Pad(p)| != |Pad(q)|
  {
  }

  /** The length `PadFixed` fills to: room for the longest admitted password
      and its terminator. */
  const PaddedLength: nat := MaxPasswordLength + 1

  /** The padding as evidently intended: every password of up to
      `MaxPasswordLength` characters, the longest one included, pads to the
      same length, and the codec still round-trips. */
  function PadFixed(password: string): (r: string)
    ensures |password| <= MaxPasswordLength ==> |r| == PaddedLength
    ensures Nul !in password ==> Unpad(r) == password
  {
    var r := PadEnd(password + [Nul], PaddedLength, Nul);
    if Nul !in password then UnpadUnique(r, password); r else r
  }

  /** Length hiding of the corrected padding, for every admitted password. */
  lemma PadFixedHidesLength(p: string, q: string)
    requires |p| <= MaxPasswordLength && |q| <= MaxPasswordLength
    ensures |PadFixed(p)| == |PadFixed(q)|
  {
  }
}
