/**
 * The argument handling of `!colors`: the given names are lowercased and every name not
 * in the accepted list is reported.
 */
module ColorInput {

  import opened Config

  predicate IsUpper(c: char) {
    'A' <= c <= 'Z'
  }

  /** `str.lower` on ASCII letters. */
  function LowerChar(c: char): (l: char)
    ensures !IsUpper(l)
    ensures !IsUpper(c) ==> l == c
    ensures IsUpper(c) ==> l as int == c as int + 32
  {
    if IsUpper(c) then (c as int + 32) as char else c
  }

  function Lower(s: string): (r: string)
    ensures |r| == |s| && forall i :: 0 <= i < |s| ==> r[i] == LowerChar(s[i])
  {
    seq(|s|, i requires 0 <= i < |s| => LowerChar(s[i]))
  }

  /** `[c.lower() for c in colors]`. */
  function LowerAll(colors: seq<string>): (r: seq<string>)
    ensures |r| == |colors| && forall i :: 0 <= i < |colors| ==> r[i] == Lower(colors[i])
  {
    seq(|colors|, i requires 0 <= i < |colors| => Lower(colors[i]))
  }

  /** Lowercasing twice is lowercasing once. */
  lemma LowerIdempotent(s: string)
    ensures Lower(Lower(s)) == Lower(s)
  {
  }

  /** `[c for c in colors if c not in valid_colors]`. */
  function InvalidColors(colors: seq<string>): seq<string>
  {
    if colors == [] then []
    else
      var n := |colors| - 1;
      InvalidColors(colors[..n]) + (if colors[n] in ValidColorNames then [] else [colors[n]])
  }

  /** The invalid list holds exactly the given names that are not accepted. */
  lemma {:induction false} InvalidColorsMembers(colors: seq<string>)
    ensures forall c :: c in InvalidColors(colors) <==> c in colors && c !in ValidColorNames
    ensures |InvalidColors(colors)| <= |colors|
  {
    if colors != [] {
      var n := |colors| - 1;
      InvalidColorsMembers(colors[..n]);
      assert colors == colors[..n] + [colors[n]];
    }
  }

  /** The invalid list is empty exactly when every given name is accepted. */
  lemma InvalidColorsEmpty(colors: seq<string>)
    ensures InvalidColors(colors) == [] <==> forall c :: c in colors ==> c in ValidColorNames
  {
    InvalidColorsMembers(colors);
    if InvalidColors(colors) != [] {
      assert InvalidColors(colors)[0] in InvalidColors(colors);
    }
  }

  /** The invalid list keeps the order of the given names: the filter distributes over
      concatenation. */
  lemma {:induction false} InvalidColorsAppend(a: seq<string>, b: seq<string>)
    ensures InvalidColors(a + b) == InvalidColors(a) + InvalidColors(b)
  {
    if b != [] {
      var n := |b| - 1;
      assert (a + b)[..|a| + n] == a + b[..n];
      InvalidColorsAppend(a, b[..n]);
    } else {
      assert a + b == a;
    }
  }
}
