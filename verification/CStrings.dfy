/** C strings and their comparison without regard to case. */
module CStrings {

  import opened Words

  /** What c_str() shows to a C function: the bytes before the first NUL. */
  function Visible(s: seq<byte>): seq<byte> {
    if s == [] || s[0] == 0 then [] else [s[0]] + Visible(s[1..])
  }

  function LowerByte(c: byte): byte {
    if 65 <= c <= 90 then c + 32 else c
  }

  function Lower(s: seq<byte>): (r: seq<byte>)
    ensures |r| == |s| && forall i :: 0 <= i < |s| ==> r[i] == LowerByte(s[i])
  {
    seq(|s|, i requires 0 <= i < |s| => LowerByte(s[i]))
  }

  /** Strings that strcasecmp finds equal have the same key. */
  function Key(s: seq<byte>): seq<byte> {
    Lower(Visible(s))
  }

  /** A C function sees the bytes up to the first NUL, and all if there is none. */
  lemma {:induction false} VisibleMeans(s: seq<byte>)
    ensures Visible(s) <= s && 0 !in Visible(s)
    ensures |Visible(s)| < |s| ==> s[|Visible(s)|] == 0
  {
    if s != [] && s[0] != 0 {
      VisibleMeans(s[1..]);
    }
  }

  lemma VisibleWhole(s: seq<byte>)
    requires 0 !in s
    ensures Visible(s) == s
  {
    VisibleMeans(s);
  }

  /** The same byte, or the two cases of one letter. */
  predicate SameLetter(a: byte, b: byte) {
    a == b || ('A' as int <= a <= 'Z' as int && b == a + 32) || ('A' as int <= b <= 'Z' as int && a == b + 32)
  }

  /** A key is what a C function sees of the string, in small letters. */
  lemma KeyMeans(s: seq<byte>)
    ensures |Key(s)| == |Visible(s)|
    ensures forall i :: 0 <= i < |Key(s)| ==>
              SameLetter(Key(s)[i], Visible(s)[i]) && !('A' as int <= Key(s)[i] <= 'Z' as int)
  {
  }

  /** A string of small letters and no NUL is its own key. */
  lemma SmallKey(s: seq<byte>)
    requires forall i :: 0 <= i < |s| ==> s[i] != 0 && !('A' as int <= s[i] <= 'Z' as int)
    ensures Key(s) == s
  {
    VisibleWhole(s);
  }

  /** Two strings have the same key exactly when, as far as a C function sees them,
      they differ in the case of letters only. */
  lemma SameKey(s: seq<byte>, t: seq<byte>)
    ensures Key(s) == Key(t) <==>
            var v, w := Visible(s), Visible(t);
            |v| == |w| && forall i :: 0 <= i < |v| ==> SameLetter(v[i], w[i])
  {
    var v, w := Visible(s), Visible(t);
    hide Visible;
    if Key(s) == Key(t) {
      forall i | 0 <= i < |v|
        ensures SameLetter(v[i], w[i])
      {
        assert Lower(v)[i] == Lower(w)[i];
      }
    } else if |v| == |w| {
      var i :| 0 <= i < |v| && Lower(v)[i] != Lower(w)[i];
      assert !SameLetter(v[i], w[i]);
    }
  }

  /** The bytes of a string of the source. */
  function Ascii(s: string): seq<byte>
    requires forall i :: 0 <= i < |s| ==> s[i] < 128 as char
  {
    seq(|s|, i requires 0 <= i < |s| => s[i] as int)
  }
}
