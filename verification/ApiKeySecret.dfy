/** The raw API key format: printing, parsing, and the display identifier. */
module ApiKeySecret {
  import opened Kernel
  import opened Alphabet

  const SCHEME := "orgistry"
  const SEPARATOR := '_'
  const SCHEME_PREFIX := "orgistry_"
  const DISPLAY_ALPHABET := "0123456789ABCDEFGHJKMNPQRSTVWXYZ"
  const DISPLAY_ID_LENGTH := 8

  datatype ParsedApiKey = ParsedApiKey(displayPrefix: string, secretComponent: string)

  datatype GeneratedApiKey = GeneratedApiKey(raw: string, displayPrefix: string, secret: string)

  /** `String.indexOf`. */
  function IndexOf(s: string, c: char): (i: int)
    ensures i == -1 ==> c !in s
    ensures i != -1 ==> 0 <= i < |s| && s[i] == c && c !in s[..i]
  {
    if s == [] then -1
    else if s[0] == c then 0
    else
      var i := IndexOf(s[1..], c);
      assert i != -1 ==> s[..i + 1] == [s[0]] + s[1..][..i];
      if i == -1 then -1 else i + 1
  }

  /** A missing or malformed credential is `None`; nothing throws. */
  function ParseApiKey(raw: Option<string>): Option<ParsedApiKey> {
    if raw.None? || raw.value == "" then None
    else if !(SCHEME_PREFIX <= raw.value) then None
    else
      var remainder := raw.value[|SCHEME_PREFIX|..];
      var i := IndexOf(remainder, SEPARATOR);
      if i <= 0 then None
      else
        var displayId, secretComponent := remainder[..i], remainder[i + 1..];
        if displayId == "" || secretComponent == "" then None
        else Some(ParsedApiKey(SCHEME_PREFIX + displayId, secretComponent))
  }

  /** Both random draws are parameters: the identifier's bytes, and the encoded secret. */
  method GenerateApiKeySecret(displayBytes: seq<Byte>, secret: string) returns (k: GeneratedApiKey)
    requires |displayBytes| == DISPLAY_ID_LENGTH && secret != ""
    ensures k.secret == secret
    ensures ParseApiKey(Some(k.raw)) == Some(ParsedApiKey(k.displayPrefix, secret))
    ensures k.displayPrefix == SCHEME_PREFIX + Sample(DISPLAY_ALPHABET, displayBytes)
  {
    DisplayAlphabetIsSound();
    var displayId := RandomAlphabetString(DISPLAY_ALPHABET, displayBytes);
    var displayPrefix := SCHEME + [SEPARATOR] + displayId;
    k := GeneratedApiKey(displayPrefix + [SEPARATOR] + secret, displayPrefix, secret);
    assert SCHEME + [SEPARATOR] == SCHEME_PREFIX;
    assert k.raw == Printed(displayId, secret);
    assert forall i :: 0 <= i < |displayId| ==> displayId[i] in DISPLAY_ALPHABET;
    PrintThenParse(displayId, secret);
  }

  /** Thirty-two different characters, the separator not among them. */
  lemma DisplayAlphabetIsSound()
    ensures |DISPLAY_ALPHABET| == 32 && AssertUniformAlphabet(DISPLAY_ALPHABET)
    ensures Distinct(DISPLAY_ALPHABET) && SEPARATOR !in DISPLAY_ALPHABET
  {
    var s := DISPLAY_ALPHABET;
    forall i, j | 0 <= i < j < |s| ensures s[i] < s[j] {
      Ascends(i, j);
    }
    forall i | 0 <= i < |s| ensures s[i] != SEPARATOR {
      assert i < 31 ==> s[i] < s[31];
    }
  }

  lemma OneUp(i: nat)
    requires i < 31
    ensures DISPLAY_ALPHABET[i] < DISPLAY_ALPHABET[i + 1]
  {
  }

  lemma {:induction false} Ascends(i: nat, j: nat)
    requires i < j < 32
    ensures DISPLAY_ALPHABET[i] < DISPLAY_ALPHABET[j]
  {
    OneUp(j - 1);
    if i < j - 1 {
      Ascends(i, j - 1);
    }
  }

  function Printed(displayId: string, secret: string): string {
    SCHEME_PREFIX + displayId + [SEPARATOR] + secret
  }

  lemma FirstSeparator(displayId: string, secret: string)
    requires SEPARATOR !in displayId
    ensures IndexOf(displayId + [SEPARATOR] + secret, SEPARATOR) == |displayId|
  {
    var s := displayId + [SEPARATOR] + secret;
    var i := IndexOf(s, SEPARATOR);
    assert s[|displayId|] == SEPARATOR;
  }

  /** Printing then parsing gives both parts back, separators inside the secret included. */
  lemma PrintThenParse(displayId: string, secret: string)
    requires displayId != "" && SEPARATOR !in displayId && secret != ""
    ensures ParseApiKey(Some(Printed(displayId, secret))) == Some(ParsedApiKey(SCHEME_PREFIX + displayId, secret))
  {
    var raw, rest := Printed(displayId, secret), displayId + [SEPARATOR] + secret;
    assert raw == SCHEME_PREFIX + rest;
    assert raw[|SCHEME_PREFIX|..] == rest;
    FirstSeparator(displayId, secret);
    assert rest[..|displayId|] == displayId && rest[|displayId| + 1..] == secret;
  }

  /** What a raw key parses to determines it: the parts and one separator rebuild that exact string. */
  lemma ParseThenPrint(raw: string)
    ensures var p := ParseApiKey(Some(raw));
            p.Some? ==>
              && p.value.displayPrefix + [SEPARATOR] + p.value.secretComponent == raw
              && SCHEME_PREFIX < p.value.displayPrefix && p.value.secretComponent != ""
              && SEPARATOR !in p.value.displayPrefix[|SCHEME_PREFIX|..]
  {
    if ParseApiKey(Some(raw)).Some? {
      var rest := raw[|SCHEME_PREFIX|..];
      var i := IndexOf(rest, SEPARATOR);
      assert raw == SCHEME_PREFIX + rest;
      assert rest == rest[..i] + [SEPARATOR] + rest[i + 1..];
      assert (SCHEME_PREFIX + rest[..i])[|SCHEME_PREFIX|..] == rest[..i];
    }
  }

  predicate WellFormed(raw: string, displayId: string, secret: string) {
    raw == Printed(displayId, secret) && displayId != "" && SEPARATOR !in displayId && secret != ""
  }

  /** The strings that parse are exactly the printed ones, and each is printed in one way. */
  lemma ParsesIffPrinted(raw: string)
    ensures ParseApiKey(Some(raw)).Some? <==> exists d, s :: WellFormed(raw, d, s)
    ensures forall d, s, d', s' :: WellFormed(raw, d, s) && WellFormed(raw, d', s') ==> d == d' && s == s'
  {
    if ParseApiKey(Some(raw)).Some? {
      ParseThenPrint(raw);
      var p := ParseApiKey(Some(raw)).value;
      var d := p.displayPrefix[|SCHEME_PREFIX|..];
      assert SCHEME_PREFIX + d == p.displayPrefix;
      assert WellFormed(raw, d, p.secretComponent);
    }
    forall d, s | WellFormed(raw, d, s) ensures ParseApiKey(Some(raw)) == Some(ParsedApiKey(SCHEME_PREFIX + d, s)) {
      PrintThenParse(d, s);
    }
    forall d, s, d', s' | WellFormed(raw, d, s) && WellFormed(raw, d', s') ensures d == d' && s == s' {
      assert (SCHEME_PREFIX + d)[|SCHEME_PREFIX|..] == d && (SCHEME_PREFIX + d')[|SCHEME_PREFIX|..] == d';
    }
  }
}
