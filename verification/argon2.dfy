/**
 * The encoded Argon2id hash string `$argon2id$v=19$m=..,t=..,p=..$salt$key`:
 * how `Hash` builds it and how `Verify` takes it apart. The key derivation
 * function and the base64 decoder are parameters.
 */
module Argon2 {
  import opened Wrappers
  import opened Text
  import Base64

  const Memory: nat := 64 * 1024
  const Iterations: nat := 3
  const Parallelism: nat := 4
  const SaltLength: nat := 16
  const KeyLength: nat := 32

  /** The text `Hash` copies into its 16-byte salt buffer. */
  const FixedSaltText: string := "somesalt12345678"

  /** The salt `Hash` uses: the bytes of `FixedSaltText`. */
  const FixedSalt: seq<byte> :=
    [115, 111, 109, 101, 115, 97, 108, 116, 49, 50, 51, 52, 53, 54, 55, 56]

  const Uint32Limit: nat := 0x1_0000_0000
  const Uint8Limit: nat := 0x100

  /** Cost parameters: memory (KiB), iterations, parallelism. */
  datatype Params = Params(memory: nat, iterations: nat, parallelism: nat)

  const Defaults: Params := Params(Memory, Iterations, Parallelism)

  /** `argon2.IDKey(password, salt, time, memory, threads, keyLen)`. */
  type Kdf = (string, seq<byte>, nat, nat, nat, nat) -> seq<byte>

  /** `base64.RawStdEncoding.DecodeString`: None on malformed input. */
  type Decoder = string -> Option<seq<byte>>

  /** The parameter field as `%d` renders it. */
  function FormatParams(p: Params): string {
    "m=" + Show(p.memory) + ",t=" + Show(p.iterations) + ",p=" + Show(p.parallelism)
  }

  /** Matches the literal `lit` at the front of `s`, returning what follows. */
  function Expect(lit: string, s: string): (r: Option<string>)
    ensures r.Some? <==> |lit| <= |s| && s[..|lit|] == lit
    ensures r.Some? ==> lit + r.value == s
  {
    if |lit| <= |s| && s[..|lit|] == lit then Some(s[|lit|..]) else None
  }

  /** `%d` into an unsigned integer below `limit`; a larger value is an overflow error. */
  function ScanUint(s: string, limit: nat): (r: Option<(nat, string)>)
    ensures r.Some? ==> r.value.0 < limit
  {
    match ScanNat(s)
    case None => None
    case Some((v, rest)) => if v < limit then Some((v, rest)) else None
  }

  /** One `<lit>%d` step of the scan: the literal, then a number below `limit`. */
  function ScanField(lit: string, s: string, limit: nat): (r: Option<(nat, string)>)
    ensures r.Some? ==> r.value.0 < limit
  {
    match Expect(lit, s)
    case None => None
    case Some(after) => ScanUint(after, limit)
  }

  /**
   * `fmt.Sscanf(field, "m=%d,t=%d,p=%d", &memory, &iterations, &parallelism)`
   * with memory and iterations `uint32` and parallelism `uint8`; text after
   * the last number is not looked at.
   */
  function ParseParams(f: string): (r: Option<Params>)
    ensures r.Some? ==>
      r.value.memory < Uint32Limit && r.value.iterations < Uint32Limit
      && r.value.parallelism < Uint8Limit
  {
    var m := ScanField("m=", f, Uint32Limit);
    if m.None? then None
    else
      var t := ScanField(",t=", m.value.1, Uint32Limit);
      if t.None? then None
      else
        var p := ScanField(",p=", t.value.1, Uint8Limit);
        if p.None? then None
        else Some(Params(m.value.0, t.value.0, p.value.0))
  }

  /** The fields recovered from an encoded hash. */
  datatype Decoded = Decoded(params: Params, salt: seq<byte>, key: seq<byte>)

  /**
   * Splits on `$` and checks field count, algorithm name, parameters, salt
   * and key, in that order. The version field (index 2) and the text before
   * the first `$` (index 0) are not examined.
   */
  function Parse(encoded: string, decode: Decoder): (r: Option<Decoded>)
    ensures r.Some? ==>
      var parts := Split(encoded, '$');
      && |parts| == 6 && parts[1] == "argon2id"
      && ParseParams(parts[3]) == Some(r.value.params)
      && decode(parts[4]) == Some(r.value.salt)
      && decode(parts[5]) == Some(r.value.key)
  {
    var parts := Split(encoded, '$');
    if |parts| != 6 then None
    else if parts[1] != "argon2id" then None
    else
      match ParseParams(parts[3])
      case None => None
      case Some(p) =>
        match decode(parts[4])
        case None => None
        case Some(salt) =>
          match decode(parts[5])
          case None => None
          case Some(key) => Some(Decoded(p, salt, key))
  }

  /**
   * `Verify(encodedHash, password)` without the debug log line: derives a key
   * of the stored key's length from the password with the stored salt and
   * parameters, and compares.
   */
  function Verify(encoded: string, password: string, kdf: Kdf, decode: Decoder): (ok: bool)
    ensures ok ==> |Split(encoded, '$')| == 6 && Split(encoded, '$')[1] == "argon2id"
    ensures ok ==> Parse(encoded, decode).Some?
  {
    match Parse(encoded, decode)
    case None => false
    case Some(d) =>
      kdf(password, d.salt, d.params.iterations, d.params.memory, d.params.parallelism, |d.key|)
      == d.key
  }

  /** The text `$<algo>$<version>$<params>$<salt>$<key>`. */
  function Layout(algo: string, version: string, params: string, salt: string, key: string): string {
    "$" + algo + "$" + version + "$" + params + "$" + salt + "$" + key
  }

  /** `Hash(password)` (its error result is always nil). */
  function Hash(password: string, kdf: Kdf): string {
    Layout("argon2id", "v=19", FormatParams(Defaults),
      Base64.Encode(FixedSalt), Base64.Encode(HashKey(password, kdf)))
  }

  // --------------------------------------------------------------- properties

  /**
   * Reading back a rendered parameter field gives the parameters, also when
   * other text follows that does not start with a digit.
   */
  lemma ParseFormatParams(p: Params, rest: string)
    requires p.memory < Uint32Limit && p.iterations < Uint32Limit && p.parallelism < Uint8Limit
    requires |rest| == 0 || !IsDigit(rest[0])
    ensures ParseParams(FormatParams(p) + rest) == Some(p)
  {
    var f4 := ",p=" + Show(p.parallelism) + rest;
    var f2 := ",t=" + Show(p.iterations) + f4;
    var f := FormatParams(p) + rest;
    assert f == "m=" + Show(p.memory) + f2;
    ScanFieldShow("m=", p.memory, f2, Uint32Limit);
    ScanFieldShow(",t=", p.iterations, f4, Uint32Limit);
    ScanFieldShow(",p=", p.parallelism, rest, Uint8Limit);
    ParseParamsSteps(f, p, f2, f4, rest);
  }

  /** The three scan steps succeeding in turn make the whole parse succeed. */
  lemma ParseParamsSteps(f: string, p: Params, f2: string, f4: string, rest: string)
    requires ScanField("m=", f, Uint32Limit) == Some((p.memory, f2))
    requires ScanField(",t=", f2, Uint32Limit) == Some((p.iterations, f4))
    requires ScanField(",p=", f4, Uint8Limit) == Some((p.parallelism, rest))
    ensures ParseParams(f) == Some(p)
  {
  }

  /** One scan step reads back a rendered number and stops at the next non-digit. */
  lemma ScanFieldShow(lit: string, n: nat, rest: string, limit: nat)
    requires n < limit
    requires |rest| == 0 || !IsDigit(rest[0])
    ensures ScanField(lit, lit + Show(n) + rest, limit) == Some((n, rest))
  {
    var s := lit + Show(n) + rest;
    assert s[..|lit|] == lit;
    assert s[|lit|..] == Show(n) + rest;
    ScanShow(n, rest);
  }

  /** The parameter field `Hash` writes. */
  lemma DefaultParamsText()
    ensures FormatParams(Defaults) == "m=65536,t=3,p=4"
  {
    assert Show(65536) == "65536";
  }

  /** The salt fills the 16-byte buffer exactly and spells `FixedSaltText`. */
  lemma FixedSaltLength()
    ensures |FixedSalt| == SaltLength == |FixedSaltText|
    ensures forall i :: 0 <= i < |FixedSalt| ==> FixedSalt[i] == FixedSaltText[i] as int
  {
  }

  /** The `$`-separated layout written by `Hash`, for any separator-free fields. */
  lemma {:induction false} LayoutFields(algo: string, version: string, params: string, salt: string, key: string)
    requires '$' !in algo && '$' !in version && '$' !in params && '$' !in salt && '$' !in key
    ensures Split(Layout(algo, version, params, salt, key), '$')
      == ["", algo, version, params, salt, key]
  {
    var parts := ["", algo, version, params, salt, key];
    LayoutIsJoin(algo, version, params, salt, key);
    assert forall i :: 0 <= i < |parts| ==> '$' !in parts[i];
    SplitJoin(parts, '$');
  }

  /** The layout is the `$`-join of an empty lead field and the five fields. */
  lemma {:induction false} LayoutIsJoin(algo: string, version: string, params: string, salt: string, key: string)
    ensures Layout(algo, version, params, salt, key) == Join(["", algo, version, params, salt, key], '$')
  {
    var j4 := Join([salt, key], '$');
    JoinCons(salt, [key], '$');
    var j3 := Join([params, salt, key], '$');
    JoinCons(params, [salt, key], '$');
    var j2 := Join([version, params, salt, key], '$');
    JoinCons(version, [params, salt, key], '$');
    var j1 := Join([algo, version, params, salt, key], '$');
    JoinCons(algo, [version, params, salt, key], '$');
    JoinCons("", [algo, version, params, salt, key], '$');
    assert j4 == salt + "$" + key;
    assert j3 == params + "$" + j4;
    assert j2 == version + "$" + j3;
    assert j1 == algo + "$" + j2;
  }

  /** The key `Hash` derives for `password`. */
  function HashKey(password: string, kdf: Kdf): seq<byte> {
    kdf(password, FixedSalt, Iterations, Memory, Parallelism, KeyLength)
  }

  /** The fields `Hash` fills from constants hold no separator. */
  lemma ConstantFieldsHaveNoDollar()
    ensures '$' !in "argon2id" && '$' !in "v=19"
    ensures '$' !in FormatParams(Defaults)
    ensures '$' !in Base64.Encode(FixedSalt)
  {
    ParamsFieldHasNoDollar();
    Base64.EncodeHasNoDollar(FixedSalt);
  }

  lemma ParamsFieldHasNoDollar()
    ensures '$' !in FormatParams(Defaults)
  {
    DefaultParamsText();
  }

  /** The six fields of a string made by `Hash`. */
  lemma HashFields(password: string, kdf: Kdf)
    ensures Split(Hash(password, kdf), '$')
      == ["", "argon2id", "v=19", FormatParams(Defaults),
          Base64.Encode(FixedSalt), Base64.Encode(HashKey(password, kdf))]
  {
    var key := HashKey(password, kdf);
    ConstantFieldsHaveNoDollar();
    Base64.EncodeHasNoDollar(key);
    LayoutFields("argon2id", "v=19", FormatParams(Defaults), Base64.Encode(FixedSalt), Base64.Encode(key));
  }

  /**
   * A string made by `Hash` passes every structural check of `Verify`: six
   * fields, algorithm `argon2id`, and parameters reading back as the defaults.
   */
  lemma HashPassesStructure(password: string, kdf: Kdf)
    ensures var parts := Split(Hash(password, kdf), '$');
      |parts| == 6 && parts[1] == "argon2id" && ParseParams(parts[3]) == Some(Defaults)
  {
    HashFields(password, kdf);
    FieldsPassStructure(Split(Hash(password, kdf), '$'), Defaults,
      Base64.Encode(FixedSalt), Base64.Encode(HashKey(password, kdf)));
  }

  /** The field list `Hash` lays out passes the structural checks, whatever its salt and key. */
  lemma FieldsPassStructure(parts: seq<string>, p: Params, salt: string, key: string)
    requires p.memory < Uint32Limit && p.iterations < Uint32Limit && p.parallelism < Uint8Limit
    requires parts == ["", "argon2id", "v=19", FormatParams(p), salt, key]
    ensures |parts| == 6 && parts[1] == "argon2id" && ParseParams(parts[3]) == Some(p)
  {
    assert |parts| == 6 && parts[1] == "argon2id";
    ParamsRoundTrip(parts[3], p);
  }

  /** A field holding rendered parameters reads back as those parameters. */
  lemma ParamsRoundTrip(f: string, p: Params)
    requires p.memory < Uint32Limit && p.iterations < Uint32Limit && p.parallelism < Uint8Limit
    requires f == FormatParams(p)
    ensures ParseParams(f) == Some(p)
  {
    ParseFormatParams(p, "");
    assert FormatParams(p) + "" == FormatParams(p);
  }

  /**
   * Parsing a string made by `Hash` recovers the default parameters, the
   * salt and the key, when the decoder inverts the encoder on both.
   */
  lemma ParseHash(password: string, kdf: Kdf, decode: Decoder)
    requires decode(Base64.Encode(FixedSalt)) == Some(FixedSalt)
    requires decode(Base64.Encode(HashKey(password, kdf))) == Some(HashKey(password, kdf))
    ensures Parse(Hash(password, kdf), decode) == Some(Decoded(Defaults, FixedSalt, HashKey(password, kdf)))
  {
    HashFields(password, kdf);
    HashPassesStructure(password, kdf);
  }

  /**
   * Round trip: when the decoder inverts the encoder on the salt and key and
   * the derivation yields the 32 bytes asked for, the hash of a password
   * verifies that password, and verifies another password exactly when the
   * derivation gives it the same key.
   */
  lemma HashThenVerify(password: string, other: string, kdf: Kdf, decode: Decoder)
    requires |HashKey(password, kdf)| == KeyLength
    requires decode(Base64.Encode(FixedSalt)) == Some(FixedSalt)
    requires decode(Base64.Encode(HashKey(password, kdf))) == Some(HashKey(password, kdf))
    ensures Verify(Hash(password, kdf), password, kdf, decode)
    ensures Verify(Hash(password, kdf), other, kdf, decode) <==> HashKey(other, kdf) == HashKey(password, kdf)
  {
    ParseHash(password, kdf, decode);
  }

  /**
   * The same round trip with the standard raw base64 decoder, which
   * inverts the encoder on every input: only the derivation's key length
   * is assumed.
   */
  lemma HashThenVerifyBase64(password: string, other: string, kdf: Kdf)
    requires |HashKey(password, kdf)| == KeyLength
    ensures Verify(Hash(password, kdf), password, kdf, Base64.Decode)
    ensures Verify(Hash(password, kdf), other, kdf, Base64.Decode)
      <==> HashKey(other, kdf) == HashKey(password, kdf)
  {
    Base64.DecodeEncode(FixedSalt);
    Base64.DecodeEncode(HashKey(password, kdf));
    HashThenVerify(password, other, kdf, Base64.Decode);
  }

  /**
   * Neither the version field nor the text before the first `$` affects the
   * verdict.
   */
  lemma VerifyIgnoresVersion(
    lead: string, lead': string, version: string, version': string,
    algo: string, params: string, salt: string, key: string,
    password: string, kdf: Kdf, decode: Decoder)
    requires forall f :: f in [lead, lead', version, version', algo, params, salt, key] ==> '$' !in f
    ensures Verify(Join([lead, algo, version, params, salt, key], '$'), password, kdf, decode)
      == Verify(Join([lead', algo, version', params, salt, key], '$'), password, kdf, decode)
  {
    var ps := [lead, algo, version, params, salt, key];
    var ps' := [lead', algo, version', params, salt, key];
    assert forall i :: 0 <= i < |ps| ==> ps[i] in [lead, lead', version, version', algo, params, salt, key];
    assert forall i :: 0 <= i < |ps'| ==> ps'[i] in [lead, lead', version, version', algo, params, salt, key];
    SplitJoin(ps, '$');
    SplitJoin(ps', '$');
  }

  /** Only a field count of exactly six can verify. */
  lemma WrongFieldCountFails(encoded: string, password: string, kdf: Kdf, decode: Decoder)
    requires Count(encoded, '$') != 5
    ensures !Verify(encoded, password, kdf, decode)
  {
  }

  // ------------------------------------------- the debug log slice (finding)

  /** Length in bytes of the UTF-8 encoding of `s`, which Go's slicing counts. */
  function Utf8Length(s: string): nat {
    if |s| == 0 then 0
    else
      var c := s[0] as int;
      (if c < 0x80 then 1 else if c < 0x800 then 2 else if c < 0x1_0000 then 3 else 4)
      + Utf8Length(s[1..])
  }

  /** Length of the log excerpt `encodedHash[:50]`. */
  const LogExcerpt: nat := 50

  /** What the source's `Verify` does: a run-time panic, or a verdict. */
  datatype Verdict = Panicked | Returned(ok: bool)

  /**
   * `argon2.IDKey` panics on a zero iteration count or a zero degree of
   * parallelism, and on a zero key length (its final BLAKE2b digest cannot
   * be zero bytes long); these are the parsed values that reach it.
   */
  predicate KdfPanics(d: Option<Decoded>) {
    d.Some? && (d.value.params.iterations == 0 || d.value.params.parallelism == 0 || |d.value.key| == 0)
  }

  /**
   * `Verify` as written: the debug line slices `encodedHash[:50]` before any
   * check, which panics on a string shorter than 50 bytes; a well-formed
   * string with `t=0`, `p=0` or an empty key field passes every check and
   * panics in the key derivation.
   */
  function VerifyAsWritten(encoded: string, password: string, kdf: Kdf, decode: Decoder): (v: Verdict)
    ensures v.Panicked? <==> Utf8Length(encoded) < LogExcerpt || KdfPanics(Parse(encoded, decode))
    ensures v.Returned? ==> v.ok == Verify(encoded, password, kdf, decode)
  {
    if Utf8Length(encoded) < LogExcerpt then Panicked
    else if KdfPanics(Parse(encoded, decode)) then Panicked
    else Returned(Verify(encoded, password, kdf, decode))
  }

  /**
   * The empty stored hash makes the source panic, where the evidently
   * intended answer is a plain "no match".
   */
  lemma ShortHashPanics(password: string, kdf: Kdf, decode: Decoder)
    ensures VerifyAsWritten("", password, kdf, decode) == Panicked
    ensures !Verify("", password, kdf, decode)
  {
  }

  /** Every character takes at least one byte. */
  lemma {:induction false} Utf8LengthAtLeast(s: string)
    ensures Utf8Length(s) >= |s|
  {
    if |s| > 0 {
      Utf8LengthAtLeast(s[1..]);
    }
  }

  /**
   * `Hash` never produces a string short enough to trip the slice, and,
   * read with the base64 decoder and given a derivation that yields the
   * 32 bytes asked for, nothing the key derivation refuses; so on its own
   * output the source and the corrected `Verify` agree.
   */
  lemma HashIsLongEnough(password: string, other: string, kdf: Kdf)
    requires |HashKey(password, kdf)| == KeyLength
    ensures Utf8Length(Hash(password, kdf)) >= LogExcerpt
    ensures VerifyAsWritten(Hash(password, kdf), other, kdf, Base64.Decode)
      == Returned(Verify(Hash(password, kdf), other, kdf, Base64.Decode))
  {
    var h := Hash(password, kdf);
    DefaultParamsText();
    FixedSaltLength();
    Utf8LengthAtLeast(h);
    assert !KdfPanics(Parse(h, Base64.Decode)) by {
      Base64.DecodeEncode(FixedSalt);
      Base64.DecodeEncode(HashKey(password, kdf));
      ParseHash(password, kdf, Base64.Decode);
    }
  }
}
