/** Random strings over an alphabet, one byte a character: how many byte strings yield each output. */
module Alphabet {

  type Byte = b: int | 0 <= b < 256

  /** What the guard checks: the length, and nothing else. */
  predicate AssertUniformAlphabet(alphabet: string) {
    |alphabet| != 0 && 256 % |alphabet| == 0
  }

  function Letter(alphabet: string, b: int): char
    requires alphabet != [] && 0 <= b
  {
    alphabet[b % |alphabet|]
  }

  /** The string a sequence of random bytes turns into. */
  function Sample(alphabet: string, bytes: seq<Byte>): (out: string)
    requires alphabet != []
    ensures |out| == |bytes|
  {
    if bytes == [] then [] else Sample(alphabet, bytes[..|bytes| - 1]) + [Letter(alphabet, bytes[|bytes| - 1])]
  }

  method RandomAlphabetString(alphabet: string, bytes: seq<Byte>) returns (out: string)
    requires AssertUniformAlphabet(alphabet)
    ensures out == Sample(alphabet, bytes)
    ensures forall i :: 0 <= i < |out| ==> out[i] in alphabet
  {
    out := [];
    for i := 0 to |bytes|
      invariant out == Sample(alphabet, bytes[..i])
      invariant forall k :: 0 <= k < i ==> out[k] in alphabet
    {
      assert bytes[..i + 1][..i] == bytes[..i];
      out := out + [alphabet[bytes[i] % |alphabet|]];
    }
    assert bytes[..|bytes|] == bytes;
  }

  lemma {:induction false} SampleAt(alphabet: string, bytes: seq<Byte>, i: nat)
    requires alphabet != [] && i < |bytes|
    ensures Sample(alphabet, bytes)[i] == Letter(alphabet, bytes[i]) && Sample(alphabet, bytes)[i] in alphabet
  {
    if i < |bytes| - 1 {
      SampleAt(alphabet, bytes[..|bytes| - 1], i);
    }
  }

  // ---------------------------------------------------------------- how likely each character is

  /** How often a character occurs in the alphabet. */
  function Occurrences(s: string, c: char): nat {
    if s == [] then 0 else Occurrences(s[..|s| - 1], c) + (if s[|s| - 1] == c then 1 else 0)
  }

  /** The values below m that yield the character. */
  function BytesFor(alphabet: string, c: char, m: nat): set<int>
    requires alphabet != []
  {
    set b: int | 0 <= b < m && Letter(alphabet, b) == c
  }

  lemma DivModNext(m: nat, n: nat)
    requires 1 <= n
    ensures if m % n + 1 < n then (m + 1) / n == m / n && (m + 1) % n == m % n + 1
            else (m + 1) / n == m / n + 1 && (m + 1) % n == 0
  {
    var q, r := m / n, m % n;
    assert m == n * q + r;
    if r + 1 < n {
      Quotient(n, q, r + 1);
    } else {
      assert n * (q + 1) == n * q + n;
      Quotient(n, q + 1, 0);
    }
  }

  lemma Quotient(n: nat, q: nat, r: nat)
    requires r < n
    ensures (n * q + r) / n == q && (n * q + r) % n == r
  {
    var m := n * q + r;
    var d := m / n - q;
    assert m == n * (m / n) + m % n;
    assert n * (m / n) == n * q + n * d;
    NoSmallMultiple(n, d);
  }

  /** A multiple of n other than zero is at least n away from it. */
  lemma NoSmallMultiple(n: nat, d: int)
    ensures d >= 1 ==> n * d >= n
    ensures d <= -1 ==> n * d + n <= 0
  {
    if d >= 1 {
      assert n * d == n * (d - 1) + n;
    } else if d <= -1 {
      assert n * d == n * (d + 1) - n;
    }
  }

  lemma BytesForNext(alphabet: string, c: char, m: nat)
    requires alphabet != []
    ensures |BytesFor(alphabet, c, m + 1)| == |BytesFor(alphabet, c, m)| + (if Letter(alphabet, m) == c then 1 else 0)
  {
    var before := BytesFor(alphabet, c, m);
    assert BytesFor(alphabet, c, m + 1) == if Letter(alphabet, m) == c then before + {m} else before;
  }

  lemma OccurrencesNext(s: string, i: nat, c: char)
    requires i < |s|
    ensures Occurrences(s[..i + 1], c) == Occurrences(s[..i], c) + (if s[i] == c then 1 else 0)
  {
    assert s[..i + 1][..i] == s[..i];
  }

  /** Whole passes over the alphabet, and a partial one. */
  lemma {:induction false} CountBytesFor(alphabet: string, c: char, m: nat)
    requires alphabet != []
    ensures |BytesFor(alphabet, c, m)|
            == (m / |alphabet|) * Occurrences(alphabet, c) + Occurrences(alphabet[..m % |alphabet|], c)
  {
    if m == 0 {
      assert BytesFor(alphabet, c, 0) == {};
    } else {
      var n, k := |alphabet|, m - 1;
      CountBytesFor(alphabet, c, k);
      DivModNext(k, n);
      BytesForNext(alphabet, c, k);
      OccurrencesNext(alphabet, k % n, c);
      if k % n + 1 == n {
        assert alphabet[..n] == alphabet;
        OneMorePass(k / n, Occurrences(alphabet, c));
      }
    }
  }

  lemma OneMorePass(passes: nat, occurrences: nat)
    ensures (passes + 1) * occurrences == passes * occurrences + occurrences
  {
  }

  /** How many of the 256 byte values yield the character. */
  function Weight(alphabet: string, c: char): nat
    requires alphabet != []
  {
    |BytesFor(alphabet, c, 256)|
  }

  predicate Distinct(s: string) {
    forall i, j :: 0 <= i < j < |s| ==> s[i] != s[j]
  }

  predicate Uniform(alphabet: string)
    requires alphabet != []
  {
    forall c, d :: c in alphabet && d in alphabet ==> Weight(alphabet, c) == Weight(alphabet, d)
  }

  lemma {:induction false} OccursOnce(s: string, c: char)
    requires Distinct(s)
    ensures Occurrences(s, c) == if c in s then 1 else 0
  {
    if s != [] {
      OccursOnce(s[..|s| - 1], c);
      if c in s && s[|s| - 1] != c {
        var i :| 0 <= i < |s| && s[i] == c;
        assert s[..|s| - 1][i] == c;
      }
    }
  }

  lemma WeightOf(alphabet: string, c: char)
    requires alphabet != []
    ensures Weight(alphabet, c)
            == (256 / |alphabet|) * Occurrences(alphabet, c) + Occurrences(alphabet[..256 % |alphabet|], c)
  {
    CountBytesFor(alphabet, c, 256);
  }

  /** Weight in passes and part passes: every whole pass over the alphabet counts each occurrence, the last one only a prefix. */
  function Share(alphabet: string, c: char): nat
    requires alphabet != []
  {
    (256 / |alphabet|) * Occurrences(alphabet, c) + Occurrences(alphabet[..256 % |alphabet|], c)
  }

  /** For every alphabet, accepted or refused, with or without repeats: exactly when it is uniform. */
  lemma UniformIff(alphabet: string)
    requires alphabet != []
    ensures Uniform(alphabet) <==> forall c, d :: c in alphabet && d in alphabet ==> Share(alphabet, c) == Share(alphabet, d)
  {
    forall c ensures Weight(alphabet, c) == Share(alphabet, c) {
      WeightOf(alphabet, c);
    }
  }

  /** When no character is repeated, the guard accepts exactly the uniform alphabets. */
  lemma AcceptedIffUniform(alphabet: string)
    requires alphabet != [] && Distinct(alphabet)
    ensures AssertUniformAlphabet(alphabet) <==> Uniform(alphabet)
    ensures Uniform(alphabet) ==> forall c :: c in alphabet ==> Weight(alphabet, c) == 256 / |alphabet|
  {
    var n, r := |alphabet|, 256 % |alphabet|;
    forall c | c in alphabet ensures Weight(alphabet, c) == 256 / n + if c in alphabet[..r] then 1 else 0 {
      WeightOf(alphabet, c);
      OccursOnce(alphabet, c);
      OccursOnce(alphabet[..r], c);
    }
    if r != 0 {
      assert alphabet[0] in alphabet[..r];
      assert alphabet[n - 1] !in alphabet[..r];
    }
  }

  /** An accepted alphabet that repeats characters is uniform only if it repeats all of them equally often. */
  lemma AcceptedButRepeating(alphabet: string)
    requires AssertUniformAlphabet(alphabet)
    ensures Uniform(alphabet) <==>
              forall c, d :: c in alphabet && d in alphabet ==> Occurrences(alphabet, c) == Occurrences(alphabet, d)
  {
    var q := 256 / |alphabet|;
    assert 1 <= q by {
      assert 256 == |alphabet| * q + 256 % |alphabet|;
    }
    forall c ensures Weight(alphabet, c) == q * Occurrences(alphabet, c) {
      WeightOf(alphabet, c);
    }
    forall c, d ensures Weight(alphabet, c) == Weight(alphabet, d) <==> Occurrences(alphabet, c) == Occurrences(alphabet, d) {
      SameMultiple(q, Occurrences(alphabet, c), Occurrences(alphabet, d));
    }
  }

  lemma SameMultiple(q: nat, a: nat, b: nat)
    requires 1 <= q
    ensures q * a == q * b <==> a == b
  {
    if a < b {
      assert q * (b - a) == q * b - q * a && q * (b - a) >= 1;
    } else if b < a {
      assert q * (a - b) == q * a - q * b && q * (a - b) >= 1;
    }
  }

  /** The guard looks at the length only: this one passes it, and 'a' is three times as likely as 'b'. */
  lemma RepetitionIsNotNoticed()
    ensures AssertUniformAlphabet("aaab")
    ensures Weight("aaab", 'a') == 192 && Weight("aaab", 'b') == 64
  {
    var s := "aaab";
    assert s[..3] == "aaa" && s[..3][..2] == "aa" && s[..3][..2][..1] == "a" && s[..3][..2][..1][..0] == "";
    assert Occurrences("a", 'a') == 1 && Occurrences("a", 'b') == 0;
    assert Occurrences("aa", 'a') == 2 && Occurrences("aa", 'b') == 0;
    assert Occurrences("aaa", 'a') == 3 && Occurrences("aaa", 'b') == 0;
    WeightOf("aaab", 'a');
    WeightOf("aaab", 'b');
  }

  /** And it refuses this one, which has nothing to be biased about. */
  lemma RefusalIsNotBias()
    ensures !AssertUniformAlphabet("aaa") && Uniform("aaa")
  {
    assert forall c :: c in "aaa" ==> c == 'a';
  }

  // ---------------------------------------------------------------- whole strings

  /** The byte strings that turn into `out`. */
  ghost function Preimages(alphabet: string, out: string): set<seq<int>>
    requires alphabet != []
  {
    if out == [] then {[]}
    else Extended(Preimages(alphabet, out[..|out| - 1]), BytesFor(alphabet, out[|out| - 1], 256))
  }

  ghost function Extended(ps: set<seq<int>>, bs: set<int>): set<seq<int>> {
    set p, b | p in ps && b in bs :: p + [b]
  }

  predicate AreBytes(s: seq<int>) {
    forall i :: 0 <= i < |s| ==> 0 <= s[i] < 256
  }

  lemma {:induction false} PreimagesSample(alphabet: string, out: string, bytes: seq<int>)
    requires alphabet != [] && bytes in Preimages(alphabet, out)
    ensures AreBytes(bytes) && Sample(alphabet, bytes) == out
    decreases |out|
  {
    if out != [] {
      var n := |out| - 1;
      var p, b :| p in Preimages(alphabet, out[..n]) && b in BytesFor(alphabet, out[n], 256) && bytes == p + [b];
      PreimagesSample(alphabet, out[..n], p);
      assert bytes[..|bytes| - 1] == p;
    }
  }

  lemma {:induction false} SamplesArePreimages(alphabet: string, bytes: seq<Byte>)
    requires alphabet != []
    ensures bytes in Preimages(alphabet, Sample(alphabet, bytes))
  {
    if bytes != [] {
      var n := |bytes| - 1;
      var out := Sample(alphabet, bytes);
      SamplesArePreimages(alphabet, bytes[..n]);
      assert out[..n] == Sample(alphabet, bytes[..n]);
      assert bytes == bytes[..n] + [bytes[n]];
      assert bytes[n] in BytesFor(alphabet, out[n], 256);
    }
  }

  /** They are exactly those: nothing is missed and nothing is extra. */
  lemma PreimagesAreExact(alphabet: string, out: string, bytes: seq<int>)
    requires alphabet != []
    ensures bytes in Preimages(alphabet, out) <==> AreBytes(bytes) && Sample(alphabet, bytes) == out
  {
    if bytes in Preimages(alphabet, out) {
      PreimagesSample(alphabet, out, bytes);
    }
    if AreBytes(bytes) {
      SamplesArePreimages(alphabet, bytes);
    }
  }

  lemma CountWithout(ps: set<seq<int>>, bs: set<int>, b: int)
    requires b in bs
    ensures |Extended(ps, bs)| == |Extended(ps, bs - {b})| + |ps|
  {
    var rest, mine := Extended(ps, bs - {b}), Extended(ps, {b});
    CountOne(ps, b);
    assert Extended(ps, bs) == rest + mine;
    assert rest !! mine by {
      assert forall s :: s in mine ==> s[|s| - 1] == b;
      assert forall s :: s in rest ==> s[|s| - 1] != b;
    }
  }

  lemma {:induction false} CountExtended(ps: set<seq<int>>, alphabet: string, c: char, m: nat)
    requires alphabet != []
    ensures |Extended(ps, BytesFor(alphabet, c, m))| == |ps| * |BytesFor(alphabet, c, m)|
  {
    var bs := BytesFor(alphabet, c, m);
    if m == 0 {
      assert bs == {} && Extended(ps, bs) == {};
    } else {
      CountExtended(ps, alphabet, c, m - 1);
      BytesForNext(alphabet, c, m - 1);
      if m - 1 in bs {
        CountWithout(ps, bs, m - 1);
        assert bs - {m - 1} == BytesFor(alphabet, c, m - 1);
        assert |ps| * |bs| == |ps| * (|bs| - 1) + |ps|;
      } else {
        assert bs == BytesFor(alphabet, c, m - 1);
      }
    }
  }

  lemma {:induction false} CountOne(ps: set<seq<int>>, b: int)
    ensures |Extended(ps, {b})| == |ps|
    decreases |ps|
  {
    if |ps| == 0 {
      assert Extended(ps, {b}) == {};
    } else {
      var p: seq<int> :| p in ps;
      var rest := Extended(ps - {p}, {b});
      CountOne(ps - {p}, b);
      forall s ensures s in Extended(ps, {b}) <==> s in rest || s == p + [b] {
        if s in Extended(ps, {b}) {
          var q, c :| q in ps && c in {b} && s == q + [c];
          assert q in ps - {p} ==> s in rest;
        }
      }
      assert Extended(ps, {b}) == rest + {p + [b]};
      forall q | q in ps - {p} ensures q + [b] != p + [b] {
        assert (q + [b])[..|q|] == q && (p + [b])[..|p|] == p;
      }
    }
  }

  function Power(b: nat, k: nat): nat {
    if k == 0 then 1 else Power(b, k - 1) * b
  }

  /** Every output of every length comes from the same number of byte strings. */
  lemma {:induction false} EveryStringEquallyLikely(alphabet: string, out: string)
    requires AssertUniformAlphabet(alphabet) && Distinct(alphabet)
    requires forall i :: 0 <= i < |out| ==> out[i] in alphabet
    ensures |Preimages(alphabet, out)| == Power(256 / |alphabet|, |out|)
    decreases |out|
  {
    if out != [] {
      var n := |out| - 1;
      EveryStringEquallyLikely(alphabet, out[..n]);
      AcceptedIffUniform(alphabet);
      CountExtended(Preimages(alphabet, out[..n]), alphabet, out[n], 256);
    }
  }
}
