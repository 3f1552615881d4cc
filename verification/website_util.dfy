/** The certification-id generator of `website.util.ts`: twelve characters,
    each picked from a 36-character alphabet by one random draw. The draws are
    given as a sequence of alphabet indices instead of calls to
    `Math.floor(Math.random() * 36)`. */
module WebsiteUtil {
  const CHARACTERS := "ABCDEFGHIJKLMNOPQRSTUVWXYZ0123456789"
  const CERTIFICATION_ID_LENGTH := 12

  /** One draw: an index into the alphabet. */
  type Draw = d: nat | d < 36

  /** An id of the generator's format: twelve alphabet characters. */
  predicate IsCertificationId(id: string)
  {
    |id| == CERTIFICATION_ID_LENGTH && forall i :: 0 <= i < |id| ==> id[i] in CHARACTERS
  }

  /** The reference definition: the characters of the draws, appended in draw
      order with no separator. */
  function CodeOf(draws: seq<Draw>): (code: string)
    ensures |code| == |draws|
    ensures forall i :: 0 <= i < |draws| ==> code[i] == CHARACTERS[draws[i]]
  {
    if draws == [] then ""
    else CodeOf(draws[..|draws| - 1]) + [CHARACTERS[draws[|draws| - 1]]]
  }

  /** `generateCertificationId`: the loop appends one alphabet character per
      draw, twelve times. */
  method GenerateCertificationId(draws: seq<Draw>) returns (certificationId: string)
    requires |draws| == CERTIFICATION_ID_LENGTH
    ensures IsCertificationId(certificationId)
    ensures certificationId == CodeOf(draws)
  {
    certificationId := "";
    var i := 0;
    while i < CERTIFICATION_ID_LENGTH
      invariant 0 <= i <= CERTIFICATION_ID_LENGTH
      invariant certificationId == CodeOf(draws[..i])
    {
      assert draws[..i + 1][..i] == draws[..i];
      certificationId := certificationId + [CHARACTERS[draws[i]]];
      i := i + 1;
    }
    assert draws[..i] == draws;
  }

  /** The alphabet spelled out: the letters, then the digits. */
  function CharAt(d: Draw): char
  {
    if d < 26 then ('A' as int + d) as char else ('0' as int + d - 26) as char
  }

  /** The alphabet constant is the letters followed by the digits. */
  lemma CharactersAreCharAt()
    ensures forall d: Draw :: CHARACTERS[d] == CharAt(d)
  {
    assert CHARACTERS == seq(36, (i: int) requires 0 <= i < 36 => CharAt(i as Draw));
  }

  /** The alphabet index of a character of the alphabet. */
  function IndexOfCharacter(c: char): (d: Draw)
    requires c in CHARACTERS
    ensures CHARACTERS[d] == c
  {
    CharactersAreCharAt();
    if 'A' <= c <= 'Z' then (c as int - 'A' as int) as Draw
    else (c as int - '0' as int + 26) as Draw
  }

  /** The draws an id was generated from, read back from its characters. */
  function DrawsOf(code: string): (draws: seq<Draw>)
    requires forall i :: 0 <= i < |code| ==> code[i] in CHARACTERS
    ensures |draws| == |code|
  {
    seq(|code|, i requires 0 <= i < |code| => IndexOfCharacter(code[i]))
  }

  /** The alphabet has no repeated character, so a character fixes its draw. */
  lemma CharactersDistinct(d: Draw, e: Draw)
    requires CHARACTERS[d] == CHARACTERS[e]
    ensures d == e
  {
    CharactersAreCharAt();
  }

  /** Round trip: the id determines the draws it came from. */
  lemma DrawsOfCodeOf(draws: seq<Draw>)
    ensures DrawsOf(CodeOf(draws)) == draws
  {
    var code := CodeOf(draws);
    forall i | 0 <= i < |draws|
      ensures DrawsOf(code)[i] == draws[i]
    {
      CharactersDistinct(DrawsOf(code)[i], draws[i]);
    }
  }

  /** Round trip: every id of the generator's format comes from some draws. */
  lemma CodeOfDrawsOf(code: string)
    requires IsCertificationId(code)
    ensures CodeOf(DrawsOf(code)) == code
    ensures |DrawsOf(code)| == CERTIFICATION_ID_LENGTH
  {
  }
}
