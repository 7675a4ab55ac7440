/** The session string: five parts between dots, the last one signing the first four. */
module SessionText {
  import opened Journals
  import opened HandoverTypes
  import D = Decimal

  const UINT64: nat := 0xFFFF_FFFF_FFFF_FFFF

  /** An uninterpreted signature, and a text coding of it whose output has no dot. */
  datatype Signing = Signing(sign: string -> string, encode: string -> string, decode: string -> Option<string>)

  ghost predicate Lawful(signing: Signing) {
    forall b: string :: NoDot(signing.encode(b)) && signing.decode(signing.encode(b)) == Some(b)
  }

  predicate NoDot(s: string) {
    forall i :: 0 <= i < |s| ==> s[i] != '.'
  }

  // ---- splitting and joining

  function Join(parts: seq<string>): string {
    if parts == [] then "" else if |parts| == 1 then parts[0] else Join(parts[..|parts| - 1]) + "." + parts[|parts| - 1]
  }

  /** The position of the last dot, or none. */
  function LastDot(s: string): (i: Option<nat>)
    ensures i.None? ==> NoDot(s)
    ensures i.Some? ==> i.value < |s| && s[i.value] == '.' && NoDot(s[i.value + 1..])
  {
    if s == "" then None else if s[|s| - 1] == '.' then Some(|s| - 1) else LastDot(s[..|s| - 1])
  }

  function Split(s: string): (parts: seq<string>)
    ensures parts != [] && forall i :: 0 <= i < |parts| ==> NoDot(parts[i])
    decreases |s|
  {
    var dot := LastDot(s);
    if dot.None? then [s] else Split(s[..dot.value]) + [s[dot.value + 1..]]
  }

  lemma {:induction false} LastDotOf(prefix: string, last: string)
    requires NoDot(last)
    ensures LastDot(prefix + "." + last) == Some(|prefix|)
    decreases |last|
  {
    var s := prefix + "." + last;
    if last == "" {
      assert s == prefix + ".";
    } else {
      assert s[..|s| - 1] == prefix + "." + last[..|last| - 1];
      LastDotOf(prefix, last[..|last| - 1]);
    }
  }

  lemma {:induction false} LastDotNone(s: string)
    requires NoDot(s)
    ensures LastDot(s).None?
    decreases |s|
  {
  }

  lemma SplitOne(before: string, last: string)
    requires NoDot(last)
    ensures Split(before + "." + last) == Split(before) + [last]
  {
    var s := before + "." + last;
    LastDotOf(before, last);
    assert s[..|before|] == before && s[|before| + 1..] == last;
  }

  /** Splitting what was joined gives the parts back. */
  lemma {:induction false} SplitJoin(parts: seq<string>)
    requires parts != [] && forall i :: 0 <= i < |parts| ==> NoDot(parts[i])
    ensures Split(Join(parts)) == parts
    decreases |parts|
  {
    if |parts| == 1 {
      LastDotNone(parts[0]);
    } else {
      var before, last := parts[..|parts| - 1], parts[|parts| - 1];
      SplitJoin(before);
      SplitOne(Join(before), last);
      assert parts == before + [last];
    }
  }

  lemma {:induction false} JoinSplit(s: string)
    ensures Join(Split(s)) == s
    decreases |s|
  {
    var dot := LastDot(s);
    if dot.Some? {
      JoinSplit(s[..dot.value]);
      var before := Split(s[..dot.value]);
      assert Split(s)[..|Split(s)| - 1] == before;
      assert s == s[..dot.value] + "." + s[dot.value + 1..];
    }
  }

  // ---- minting and reading

  function Payload(id: AccountId, generation: nat, expires: int): string {
    Join(["v2", id, D.Format(generation), D.FormatInt(expires)])
  }

  function Session(signing: Signing, id: AccountId, generation: nat, expires: int): string {
    var payload := Payload(id, generation, expires);
    Join(["v2", id, D.Format(generation), D.FormatInt(expires), signing.encode(signing.sign(payload))])
  }

  lemma PayloadText(id: AccountId, generation: nat, expires: int)
    ensures Payload(id, generation, expires) == "v2." + id + "." + D.Format(generation) + "." + D.FormatInt(expires)
  {
    var a, b, c, d := "v2", id, D.Format(generation), D.FormatInt(expires);
    assert [a, b, c, d][..3] == [a, b, c] && [a, b, c][..2] == [a, b] && [a, b][..1] == [a];
    assert Join([a, b]) == "v2" + "." + b && "v2" + "." == "v2.";
    assert Join([a, b, c]) == Join([a, b]) + "." + c;
  }

  lemma SessionIsSignedPayload(signing: Signing, id: AccountId, generation: nat, expires: int)
    ensures var payload := Payload(id, generation, expires);
            Session(signing, id, generation, expires) == payload + "." + signing.encode(signing.sign(payload))
  {
    var e := signing.encode(signing.sign(Payload(id, generation, expires)));
    var four := ["v2", id, D.Format(generation), D.FormatInt(expires)];
    assert ["v2", id, D.Format(generation), D.FormatInt(expires), e][..4] == four;
  }

  datatype Claim = Claim(id: AccountId, generation: nat, expires: int)

  /** The claim of a well-formed session string with a valid signature. */
  function ReadSession(signing: Signing, value: string): Option<Claim> {
    var parts := Split(value);
    if |parts| != 5 || parts[0] != "v2" || !CanonicalId(parts[1]) then None
    else if !D.Digits(parts[2]) || !(0 < D.ValueOf(parts[2]) <= UINT64) then None
    else if D.ParsedInt(parts[3]).None? then None
    else if signing.decode(parts[4]) != Some(signing.sign(Join(parts[..4]))) then None
    else Some(Claim(parts[1], D.ValueOf(parts[2]), D.ParsedInt(parts[3]).value))
  }

  lemma PartsHaveNoDot(id: AccountId, generation: nat, expires: int)
    requires CanonicalId(id)
    ensures NoDot(id) && NoDot(D.Format(generation)) && NoDot(D.FormatInt(expires))
  {
  }

  /** A minted session reads back as exactly what it was minted for. */
  lemma SessionRoundTrip(signing: Signing, id: AccountId, generation: nat, expires: int)
    requires Lawful(signing) && CanonicalId(id) && 0 < generation <= UINT64 && 0 - D.LIMIT_63 <= expires < D.LIMIT_63
    ensures ReadSession(signing, Session(signing, id, generation, expires)) == Some(Claim(id, generation, expires))
  {
    var payload := Payload(id, generation, expires);
    var parts := ["v2", id, D.Format(generation), D.FormatInt(expires), signing.encode(signing.sign(payload))];
    PartsHaveNoDot(id, generation, expires);
    assert NoDot("v2") && NoDot(parts[4]);
    SplitJoin(parts);
    assert parts[..4] == ["v2", id, D.Format(generation), D.FormatInt(expires)];
    D.ValueOfFormat(generation);
    D.ParsedFormatInt(expires);
  }

  /** Whatever reads as a claim carries a valid signature over its own first four parts. */
  lemma ReadIsSigned(signing: Signing, value: string)
    requires ReadSession(signing, value).Some?
    ensures exists payload, signature ::
              value == payload + "." + signature && signing.decode(signature) == Some(signing.sign(payload))
  {
    var parts := Split(value);
    JoinSplit(value);
    assert parts[..|parts| - 1] == parts[..4];
    assert value == Join(parts[..4]) + "." + parts[4];
  }

  /** The string spells this claim: version, runtime, digits of the generation, expiry, and a
      signature that decodes to that of the four parts before it. */
  ghost predicate Spells(signing: Signing, value: string, claim: Claim, g: string, e: string, signature: string) {
    var payload := "v2." + claim.id + "." + g + "." + e;
    && value == payload + "." + signature && NoDot(g) && NoDot(e) && NoDot(signature)
    && CanonicalId(claim.id) && D.Digits(g) && D.ValueOf(g) == claim.generation && 1 <= claim.generation < 0x1_0000_0000_0000_0000
    && D.ParsedInt(e) == Some(claim.expires) && signing.decode(signature) == Some(signing.sign(payload))
  }

  lemma JoinFour(a: string, b: string, c: string, d: string)
    ensures Join([a, b, c, d]) == a + "." + b + "." + c + "." + d
  {
    assert [a, b, c, d][..3] == [a, b, c] && [a, b, c][..2] == [a, b] && [a, b][..1] == [a];
    assert Join([a, b]) == a + "." + b;
    assert Join([a, b, c]) == Join([a, b]) + "." + c;
    assert Join([a, b, c, d]) == Join([a, b, c]) + "." + d;
  }

  lemma JoinFive(a: string, b: string, c: string, d: string, e: string)
    ensures Join([a, b, c, d, e]) == a + "." + b + "." + c + "." + d + "." + e
  {
    assert [a, b, c, d, e][..4] == [a, b, c, d];
    JoinFour(a, b, c, d);
    assert Join([a, b, c, d, e]) == Join([a, b, c, d]) + "." + e;
  }

  lemma SpelledIsRead(signing: Signing, value: string, claim: Claim, g: string, e: string, signature: string)
    requires Spells(signing, value, claim, g, e, signature)
    ensures ReadSession(signing, value) == Some(claim)
  {
    var parts := ["v2", claim.id, g, e, signature];
    JoinFive("v2", claim.id, g, e, signature);
    JoinFour("v2", claim.id, g, e);
    assert "v2." + claim.id == "v2" + "." + claim.id;
    assert NoDot("v2") && NoDot(claim.id);
    SplitJoin(parts);
    assert parts[..4] == ["v2", claim.id, g, e];
    assert Join(parts[..4]) == "v2." + claim.id + "." + g + "." + e;
  }

  /** A string reads as a claim if and only if it spells that claim. */
  lemma ReadExactly(signing: Signing, value: string, claim: Claim)
    ensures ReadSession(signing, value) == Some(claim) <==> exists g, e, signature :: Spells(signing, value, claim, g, e, signature)
  {
    if ReadSession(signing, value) == Some(claim) {
      var parts := Split(value);
      JoinSplit(value);
      assert parts == ["v2", parts[1], parts[2], parts[3], parts[4]];
      assert parts[..4] == ["v2", parts[1], parts[2], parts[3]];
      JoinFive("v2", parts[1], parts[2], parts[3], parts[4]);
      JoinFour("v2", parts[1], parts[2], parts[3]);
      assert "v2." + parts[1] == "v2" + "." + parts[1];
      assert Spells(signing, value, claim, parts[2], parts[3], parts[4]);
    }
    if g, e, signature :| Spells(signing, value, claim, g, e, signature) {
      SpelledIsRead(signing, value, claim, g, e, signature);
    }
  }
}
