/** Reading TPM structures (src/fido/tpm.rs:13-16, 24-61, 80-138 and 221-226).

    `PubArea` and `Attest` are the structures as the TPM lays them out; the parsers read them from a
    buffer with a cursor. */
module Tpm {

  type Byte = x: int | 0 <= x < 256

  type Bytes = seq<Byte>

  const ALG_RSA := 0x0001
  const ALG_NULL := 0x0010

  datatype TpmError = UnexpectedEnd | NotRsa(typ: nat)

  datatype Result<+T> = Ok(value: T) | Err(error: TpmError) {
    predicate IsFailure() { Err? }
    function PropagateFailure<U>(): Result<U> requires IsFailure() { Err(error) }
    function Extract(): T requires !IsFailure() { value }
  }

  /** Something read, and what follows it. */
  datatype Read<+T> = Read(got: T, rest: Bytes)

  // ----- Reading the front of a buffer -----

  function Take(s: Bytes, n: nat): Result<Read<Bytes>> {
    if n > |s| then Err(UnexpectedEnd) else Ok(Read(s[..n], s[n..]))
  }

  /** from_be_bytes. */
  function Join16(a: nat, b: nat): nat {
    a * 0x100 + b
  }

  function Join32(a: nat, b: nat, c: nat, d: nat): nat {
    a * 0x100_0000 + b * 0x1_0000 + c * 0x100 + d
  }

  function U16(s: Bytes): Result<Read<nat>> {
    var r :- Take(s, 2);
    Ok(Read(Join16(r.got[0], r.got[1]), r.rest))
  }

  function U32(s: Bytes): Result<Read<nat>> {
    var r :- Take(s, 4);
    Ok(Read(Join32(r.got[0], r.got[1], r.got[2], r.got[3]), r.rest))
  }

  function Tpm2b(s: Bytes): Result<Read<Bytes>> {
    var n :- U16(s);
    Take(n.rest, n.got)
  }

  // ----- Writing -----

  function Be16(x: nat): Bytes
    requires x < 0x1_0000
  {
    [x / 0x100, x % 0x100]
  }

  function Be32(x: nat): Bytes
    requires x < 0x1_0000_0000
  {
    [x / 0x100_0000, x / 0x1_0000 % 0x100, x / 0x100 % 0x100, x % 0x100]
  }

  function Sized(d: Bytes): Bytes
    requires |d| < 0x1_0000
  {
    Be16(|d|) + d
  }

  lemma TakeOf(d: Bytes, t: Bytes)
    ensures Take(d + t, |d|) == Ok(Read(d, t))
  {}

  lemma U16Of(x: nat, t: Bytes)
    requires x < 0x1_0000
    ensures U16(Be16(x) + t) == Ok(Read(x, t))
  {
    TakeOf(Be16(x), t);
  }

  lemma U32Of(x: nat, t: Bytes)
    requires x < 0x1_0000_0000
    ensures U32(Be32(x) + t) == Ok(Read(x, t))
  {
    TakeOf(Be32(x), t);
    var a, b := x / 0x1_0000, x % 0x1_0000;
    assert x / 0x100_0000 == a / 0x100 && x / 0x100 % 0x100 == b / 0x100 && x % 0x100 == b % 0x100;
  }

  lemma Tpm2bOf(d: Bytes, t: Bytes)
    requires |d| < 0x1_0000
    ensures Tpm2b(Sized(d) + t) == Ok(Read(d, t))
  {
    U16Of(|d|, d + t);
    TakeOf(d, t);
    assert Sized(d) + t == Be16(|d|) + (d + t);
  }

  /** Whatever is read was written there. */
  lemma TookIt(s: Bytes, n: nat)
    requires Take(s, n).Ok?
    ensures var r := Take(s, n).value; s == r.got + r.rest && |r.got| == n
  {}

  lemma U16WasThere(s: Bytes)
    requires U16(s).Ok?
    ensures var r := U16(s).value; r.got < 0x1_0000 && s == Be16(r.got) + r.rest
  {
    var r := U16(s).value;
    assert s == [s[0], s[1]] + r.rest;
  }

  lemma By256(q: nat, r: nat)
    requires r < 0x100
    ensures (q * 0x100 + r) / 0x100 == q && (q * 0x100 + r) % 0x100 == r
  {}

  lemma By64K(q: nat, r: nat)
    requires r < 0x1_0000
    ensures (q * 0x1_0000 + r) / 0x1_0000 == q
  {}

  lemma By16M(q: nat, r: nat)
    requires r < 0x100_0000
    ensures (q * 0x100_0000 + r) / 0x100_0000 == q
  {}

  lemma Join32Digits(a: Byte, b: Byte, c: Byte, d: Byte)
    ensures Join32(a, b, c, d) < 0x1_0000_0000 && Be32(Join32(a, b, c, d)) == [a, b, c, d]
  {
    By16M(a, b * 0x1_0000 + c * 0x100 + d);
    By64K(a * 0x100 + b, c * 0x100 + d);
    By256(a, b);
    By256((a * 0x100 + b) * 0x100 + c, d);
    By256(a * 0x100 + b, c);
    assert Join32(a, b, c, d) == (a * 0x100 + b) * 0x1_0000 + (c * 0x100 + d);
    assert Join32(a, b, c, d) == ((a * 0x100 + b) * 0x100 + c) * 0x100 + d;
  }

  lemma U32WasThere(s: Bytes)
    requires U32(s).Ok?
    ensures var r := U32(s).value; r.got < 0x1_0000_0000 && s == Be32(r.got) + r.rest
  {
    Join32Digits(s[0], s[1], s[2], s[3]);
    assert s == [s[0], s[1], s[2], s[3]] + U32(s).value.rest;
  }

  lemma Tpm2bWasThere(s: Bytes)
    requires Tpm2b(s).Ok?
    ensures var r := Tpm2b(s).value; |r.got| < 0x1_0000 && s == Sized(r.got) + r.rest
  {
    U16WasThere(s);
    var n := U16(s).value;
    TookIt(n.rest, n.got);
  }

  // ----- The cursor -----

  class Reader {
    const b: Bytes
    var i: nat

    /** The cursor never leaves the buffer. */
    ghost predicate Valid()
      reads this
    {
      i <= |b|
    }

    ghost function Rest(): Bytes
      reads this
      requires Valid()
    {
      b[i..]
    }

    constructor (b: Bytes)
      ensures this.b == b && Valid() && Rest() == b
    {
      this.b := b;
      i := 0;
    }

    method TakeBytes(n: nat) returns (r: Result<Bytes>)
      requires Valid()
      modifies this
      ensures Valid()
      ensures match Take(old(Rest()), n)
        case Ok(read) => r == Ok(read.got) && Rest() == read.rest
        case Err(e) => r == Err(e) && i == old(i)
    {
      if i + n > |b| {
        return Err(UnexpectedEnd);
      }
      assert Rest()[..n] == b[i..i + n] && Rest()[n..] == b[i + n..];
      r := Ok(b[i..i + n]);
      i := i + n;
    }

    method ReadU16() returns (r: Result<nat>)
      requires Valid()
      modifies this
      ensures Valid()
      ensures match U16(old(Rest()))
        case Ok(read) => r == Ok(read.got) && Rest() == read.rest
        case Err(e) => r == Err(e)
    {
      var s :- TakeBytes(2);
      r := Ok(Join16(s[0], s[1]));
    }

    method ReadU32() returns (r: Result<nat>)
      requires Valid()
      modifies this
      ensures Valid()
      ensures match U32(old(Rest()))
        case Ok(read) => r == Ok(read.got) && Rest() == read.rest
        case Err(e) => r == Err(e)
    {
      var s :- TakeBytes(4);
      r := Ok(Join32(s[0], s[1], s[2], s[3]));
    }

    method ReadTpm2b() returns (r: Result<Bytes>)
      requires Valid()
      modifies this
      ensures Valid()
      ensures match Tpm2b(old(Rest()))
        case Ok(read) => r == Ok(read.got) && Rest() == read.rest
        case Err(e) => r == Err(e)
    {
      var n :- ReadU16();
      r := TakeBytes(n);
    }
  }

  // ----- TPMT_PUBLIC for RSA -----

  datatype Symmetric = NoSymmetric | Symmetric(alg: nat, keyBits: nat, mode: nat)

  datatype Scheme = NoScheme | Scheme(alg: nat, hash: nat)

  datatype PubArea = PubArea(
    nameAlg: nat, attributes: nat, authPolicy: Bytes, symmetric: Symmetric, scheme: Scheme,
    keyBits: nat, exponent: nat, modulus: Bytes)

  predicate FitsPubArea(p: PubArea) {
    && p.nameAlg < 0x1_0000 && p.attributes < 0x1_0000_0000 && |p.authPolicy| < 0x1_0000
    && (p.symmetric.Symmetric? ==>
          p.symmetric.alg < 0x1_0000 && p.symmetric.alg != ALG_NULL && p.symmetric.keyBits < 0x1_0000 &&
          p.symmetric.mode < 0x1_0000)
    && (p.scheme.Scheme? ==> p.scheme.alg < 0x1_0000 && p.scheme.alg != ALG_NULL && p.scheme.hash < 0x1_0000)
    && p.keyBits < 0x1_0000 && p.exponent < 0x1_0000_0000 && |p.modulus| < 0x1_0000
  }

  function SymmetricBytes(s: Symmetric, t: Bytes): Bytes
    requires s.Symmetric? ==> s.alg < 0x1_0000 && s.keyBits < 0x1_0000 && s.mode < 0x1_0000
  {
    if s.NoSymmetric? then Be16(ALG_NULL) + t else Be16(s.alg) + (Be16(s.keyBits) + (Be16(s.mode) + t))
  }

  function SchemeBytes(s: Scheme, t: Bytes): Bytes
    requires s.Scheme? ==> s.alg < 0x1_0000 && s.hash < 0x1_0000
  {
    if s.NoScheme? then Be16(ALG_NULL) + t else Be16(s.alg) + (Be16(s.hash) + t)
  }

  /** The structure, then `t`. */
  function PubAreaBytes(p: PubArea, t: Bytes): Bytes
    requires FitsPubArea(p)
  {
    Be16(ALG_RSA) + (Be16(p.nameAlg) + (Be32(p.attributes) + (Sized(p.authPolicy) +
      SymmetricBytes(p.symmetric, SchemeBytes(p.scheme,
        Be16(p.keyBits) + (Be32(p.exponent) + (Sized(p.modulus) + t)))))))
  }

  datatype RsaKey = RsaKey(n: Bytes, e: Bytes, nameAlg: nat)

  /** The key of a public area; a zero exponent stands for 65537. */
  function KeyOf(p: PubArea): RsaKey
    requires FitsPubArea(p)
  {
    RsaKey(p.modulus, if p.exponent == 0 then [1, 0, 1] else Be32(p.exponent), p.nameAlg)
  }

  function ReadSymmetric(s: Bytes): Result<Read<Symmetric>> {
    var alg :- U16(s);
    if alg.got == ALG_NULL then Ok(Read(NoSymmetric, alg.rest))
    else
      var keyBits :- U16(alg.rest);
      var mode :- U16(keyBits.rest);
      Ok(Read(Symmetric(alg.got, keyBits.got, mode.got), mode.rest))
  }

  function ReadScheme(s: Bytes): Result<Read<Scheme>> {
    var alg :- U16(s);
    if alg.got == ALG_NULL then Ok(Read(NoScheme, alg.rest))
    else
      var hash :- U16(alg.rest);
      Ok(Read(Scheme(alg.got, hash.got), hash.rest))
  }

  function ReadPubArea(s: Bytes): Result<Read<PubArea>> {
    var typ :- U16(s);
    if typ.got != ALG_RSA then Err(NotRsa(typ.got))
    else
      var nameAlg :- U16(typ.rest);
      var attributes :- U32(nameAlg.rest);
      var authPolicy :- Tpm2b(attributes.rest);
      var symmetric :- ReadSymmetric(authPolicy.rest);
      var scheme :- ReadScheme(symmetric.rest);
      var keyBits :- U16(scheme.rest);
      var exponent :- U32(keyBits.rest);
      var modulus :- Tpm2b(exponent.rest);
      Ok(Read(PubArea(nameAlg.got, attributes.got, authPolicy.got, symmetric.got, scheme.got, keyBits.got,
                      exponent.got, modulus.got), modulus.rest))
  }

  lemma SymmetricRead(x: Symmetric, t: Bytes)
    requires x.Symmetric? ==> x.alg < 0x1_0000 && x.alg != ALG_NULL && x.keyBits < 0x1_0000 && x.mode < 0x1_0000
    ensures ReadSymmetric(SymmetricBytes(x, t)) == Ok(Read(x, t))
  {
    if x.NoSymmetric? {
      U16Of(ALG_NULL, t);
    } else {
      U16Of(x.alg, Be16(x.keyBits) + (Be16(x.mode) + t));
      U16Of(x.keyBits, Be16(x.mode) + t);
      U16Of(x.mode, t);
    }
  }

  lemma SchemeRead(x: Scheme, t: Bytes)
    requires x.Scheme? ==> x.alg < 0x1_0000 && x.alg != ALG_NULL && x.hash < 0x1_0000
    ensures ReadScheme(SchemeBytes(x, t)) == Ok(Read(x, t))
  {
    if x.NoScheme? {
      U16Of(ALG_NULL, t);
    } else {
      U16Of(x.alg, Be16(x.hash) + t);
      U16Of(x.hash, t);
    }
  }

  /** Every public area is read back, whatever follows it. */
  lemma PubAreaRoundTrip(p: PubArea, t: Bytes)
    requires FitsPubArea(p)
    ensures ReadPubArea(PubAreaBytes(p, t)) == Ok(Read(p, t))
  {
    var t8 := Sized(p.modulus) + t;
    var t7 := Be32(p.exponent) + t8;
    var t6 := Be16(p.keyBits) + t7;
    var t5 := SchemeBytes(p.scheme, t6);
    var t4 := SymmetricBytes(p.symmetric, t5);
    var t3 := Sized(p.authPolicy) + t4;
    var t2 := Be32(p.attributes) + t3;
    U16Of(ALG_RSA, Be16(p.nameAlg) + t2);
    U16Of(p.nameAlg, t2);
    U32Of(p.attributes, t3);
    Tpm2bOf(p.authPolicy, t4);
    SymmetricRead(p.symmetric, t5);
    SchemeRead(p.scheme, t6);
    U16Of(p.keyBits, t7);
    U32Of(p.exponent, t8);
    Tpm2bOf(p.modulus, t);
  }

  lemma SymmetricWasThere(s: Bytes)
    requires ReadSymmetric(s).Ok?
    ensures var r := ReadSymmetric(s).value; var x := r.got;
      (x.Symmetric? ==> x.alg < 0x1_0000 && x.alg != ALG_NULL && x.keyBits < 0x1_0000 && x.mode < 0x1_0000) &&
      s == SymmetricBytes(x, r.rest)
  {
    U16WasThere(s);
    var alg := U16(s).value;
    if alg.got != ALG_NULL {
      U16WasThere(alg.rest);
      U16WasThere(U16(alg.rest).value.rest);
    }
  }

  lemma SchemeWasThere(s: Bytes)
    requires ReadScheme(s).Ok?
    ensures var r := ReadScheme(s).value; var x := r.got;
      (x.Scheme? ==> x.alg < 0x1_0000 && x.alg != ALG_NULL && x.hash < 0x1_0000) && s == SchemeBytes(x, r.rest)
  {
    U16WasThere(s);
    var alg := U16(s).value;
    if alg.got != ALG_NULL { U16WasThere(alg.rest); }
  }

  /** Nothing but a public area is read as one. */
  lemma PubAreaWasThere(s: Bytes)
    requires ReadPubArea(s).Ok?
    ensures var r := ReadPubArea(s).value; FitsPubArea(r.got) && s == PubAreaBytes(r.got, r.rest)
  {
    U16WasThere(s);
    var s1 := U16(s).value.rest;
    U16WasThere(s1);
    var s2 := U16(s1).value.rest;
    U32WasThere(s2);
    var s3 := U32(s2).value.rest;
    Tpm2bWasThere(s3);
    var s4 := Tpm2b(s3).value.rest;
    SymmetricWasThere(s4);
    var s5 := ReadSymmetric(s4).value.rest;
    SchemeWasThere(s5);
    var s6 := ReadScheme(s5).value.rest;
    U16WasThere(s6);
    var s7 := U16(s6).value.rest;
    U32WasThere(s7);
    Tpm2bWasThere(U32(s7).value.rest);
  }

  /** Succeeds exactly on buffers that start with an RSA public area, and gives that area's key. */
  method ParsePubAreaRsa(pubArea: Bytes) returns (r: Result<RsaKey>)
    ensures r.Ok? <==> exists p, t :: FitsPubArea(p) && pubArea == PubAreaBytes(p, t)
    ensures forall p, t :: FitsPubArea(p) && pubArea == PubAreaBytes(p, t) ==> r == Ok(KeyOf(p))
    ensures r.Err? ==> ReadPubArea(pubArea) == Err(r.error)
  {
    r := ReadKey(pubArea);
    if ReadPubArea(pubArea).Ok? { PubAreaWasThere(pubArea); }
    forall p, t | FitsPubArea(p) && pubArea == PubAreaBytes(p, t) ensures r == Ok(KeyOf(p)) {
      PubAreaRoundTrip(p, t);
    }
  }

  method SkipSymmetric(reader: Reader) returns (r: Result<()>)
    requires reader.Valid()
    modifies reader
    ensures reader.Valid()
    ensures match ReadSymmetric(old(reader.Rest()))
      case Ok(read) => r == Ok(()) && reader.Rest() == read.rest
      case Err(e) => r == Err(e)
  {
    var alg :- reader.ReadU16();
    if alg != ALG_NULL {
      var keyBits :- reader.ReadU16();
      var mode :- reader.ReadU16();
    }
    r := Ok(());
  }

  method SkipScheme(reader: Reader) returns (r: Result<()>)
    requires reader.Valid()
    modifies reader
    ensures reader.Valid()
    ensures match ReadScheme(old(reader.Rest()))
      case Ok(read) => r == Ok(()) && reader.Rest() == read.rest
      case Err(e) => r == Err(e)
  {
    var alg :- reader.ReadU16();
    if alg != ALG_NULL {
      var hash :- reader.ReadU16();
    }
    r := Ok(());
  }

  method ReadKey(pubArea: Bytes) returns (r: Result<RsaKey>)
    ensures match ReadPubArea(pubArea)
      case Ok(read) => FitsPubArea(read.got) && r == Ok(KeyOf(read.got))
      case Err(e) => r == Err(e)
  {
    if ReadPubArea(pubArea).Ok? { PubAreaWasThere(pubArea); }
    var reader := new Reader(pubArea);
    var typ :- reader.ReadU16();
    if typ != ALG_RSA {
      return Err(NotRsa(typ));
    }
    var nameAlg :- reader.ReadU16();
    var attributes :- reader.ReadU32();
    var authPolicy :- reader.ReadTpm2b();
    var symmetric :- SkipSymmetric(reader);
    var scheme :- SkipScheme(reader);
    var keyBits :- reader.ReadU16();
    var exponent :- reader.ReadU32();
    var modulus :- reader.ReadTpm2b();
    var e := if exponent == 0 then [1, 0, 1] else Be32(exponent);
    r := Ok(RsaKey(modulus, e, nameAlg));
  }

  // ----- TPMS_ATTEST with TPMS_CERTIFY_INFO -----

  datatype Attest = Attest(
    magic: nat, typ: nat, qualifiedSigner: Bytes, extraData: Bytes, clockInfo: Bytes, firmware: Bytes,
    name: Bytes, qualifiedName: Bytes)

  predicate FitsAttest(a: Attest) {
    && a.magic < 0x1_0000_0000 && a.typ < 0x1_0000 && |a.qualifiedSigner| < 0x1_0000 && |a.extraData| < 0x1_0000
    && |a.clockInfo| == 17 && |a.firmware| == 8 && |a.name| < 0x1_0000 && |a.qualifiedName| < 0x1_0000
  }

  /** The structure, then `t`. */
  function AttestBytes(a: Attest, t: Bytes): Bytes
    requires FitsAttest(a)
  {
    Be32(a.magic) + (Be16(a.typ) + (Sized(a.qualifiedSigner) + (Sized(a.extraData) + (a.clockInfo + (a.firmware +
      (Sized(a.name) + (Sized(a.qualifiedName) + t)))))))
  }

  function ReadAttest(s: Bytes): Result<Read<Attest>> {
    var magic :- U32(s);
    var typ :- U16(magic.rest);
    var signer :- Tpm2b(typ.rest);
    var extra :- Tpm2b(signer.rest);
    var clock :- Take(extra.rest, 17);
    var firmware :- Take(clock.rest, 8);
    var name :- Tpm2b(firmware.rest);
    var qualified :- Tpm2b(name.rest);
    Ok(Read(Attest(magic.got, typ.got, signer.got, extra.got, clock.got, firmware.got, name.got, qualified.got),
            qualified.rest))
  }

  /** Every attestation is read back, whatever follows it. */
  lemma AttestRoundTrip(a: Attest, t: Bytes)
    requires FitsAttest(a)
    ensures ReadAttest(AttestBytes(a, t)) == Ok(Read(a, t))
  {
    var t7 := Sized(a.qualifiedName) + t;
    var t6 := Sized(a.name) + t7;
    var t5 := a.firmware + t6;
    var t4 := a.clockInfo + t5;
    var t3 := Sized(a.extraData) + t4;
    var t2 := Sized(a.qualifiedSigner) + t3;
    U32Of(a.magic, Be16(a.typ) + t2);
    U16Of(a.typ, t2);
    Tpm2bOf(a.qualifiedSigner, t3);
    Tpm2bOf(a.extraData, t4);
    TakeOf(a.clockInfo, t5);
    TakeOf(a.firmware, t6);
    Tpm2bOf(a.name, t7);
    Tpm2bOf(a.qualifiedName, t);
  }

  /** Nothing but an attestation is read as one. */
  lemma AttestWasThere(s: Bytes)
    requires ReadAttest(s).Ok?
    ensures var r := ReadAttest(s).value; FitsAttest(r.got) && s == AttestBytes(r.got, r.rest)
  {
    U32WasThere(s);
    var s1 := U32(s).value.rest;
    U16WasThere(s1);
    var s2 := U16(s1).value.rest;
    Tpm2bWasThere(s2);
    var s3 := Tpm2b(s2).value.rest;
    Tpm2bWasThere(s3);
    var s4 := Tpm2b(s3).value.rest;
    TookIt(s4, 17);
    var s5 := Take(s4, 17).value.rest;
    TookIt(s5, 8);
    var s6 := Take(s5, 8).value.rest;
    Tpm2bWasThere(s6);
    Tpm2bWasThere(Tpm2b(s6).value.rest);
  }

  datatype CertInfo = CertInfo(magic: nat, typ: nat, extraData: Bytes, attestedName: Bytes)

  function CertInfoOf(a: Attest): CertInfo {
    CertInfo(a.magic, a.typ, a.extraData, a.name)
  }

  method ReadCertInfo(certInfo: Bytes) returns (r: Result<CertInfo>)
    ensures match ReadAttest(certInfo)
      case Ok(read) => r == Ok(CertInfoOf(read.got))
      case Err(e) => r == Err(e)
  {
    var reader := new Reader(certInfo);
    var magic :- reader.ReadU32();
    var typ :- reader.ReadU16();
    var signer :- reader.ReadTpm2b();
    var extra :- reader.ReadTpm2b();
    var clock :- reader.TakeBytes(17);
    var firmware :- reader.TakeBytes(8);
    var name :- reader.ReadTpm2b();
    var qualified :- reader.ReadTpm2b();
    r := Ok(CertInfo(magic, typ, extra, name));
  }

  /** Succeeds exactly on buffers that start with an attestation, and gives its fields. */
  method ParseCertInfo(certInfo: Bytes) returns (r: Result<CertInfo>)
    ensures r.Ok? <==> exists a, t :: FitsAttest(a) && certInfo == AttestBytes(a, t)
    ensures forall a, t :: FitsAttest(a) && certInfo == AttestBytes(a, t) ==> r == Ok(CertInfoOf(a))
  {
    r := ReadCertInfo(certInfo);
    if ReadAttest(certInfo).Ok? { AttestWasThere(certInfo); }
    forall a, t | FitsAttest(a) && certInfo == AttestBytes(a, t) ensures r == Ok(CertInfoOf(a)) {
      AttestRoundTrip(a, t);
    }
  }

  // ----- Comparing key numbers -----

  /** The number written most significant byte first. */
  function BigEndian(b: Bytes): nat {
    if b == [] then 0 else 256 * BigEndian(b[..|b| - 1]) + b[|b| - 1]
  }

  function Trimmed(b: Bytes): Bytes {
    if b != [] && b[0] == 0 then Trimmed(b[1..]) else b
  }

  method Trim0(b: Bytes) returns (s: Bytes)
    ensures s == Trimmed(b)
  {
    s := b;
    while s != [] && s[0] == 0
      invariant Trimmed(s) == Trimmed(b)
      decreases |s|
    {
      s := s[1..];
    }
  }

  lemma {:induction false} LeadingZero(b: Bytes)
    requires b != [] && b[0] == 0
    ensures BigEndian(b) == BigEndian(b[1..])
  {
    if |b| == 1 {
      assert b[..0] == [] && b[1..] == [];
    } else {
      LeadingZero(b[..|b| - 1]);
      assert b[..|b| - 1][1..] == b[1..][..|b| - 2];
    }
  }

  lemma {:induction false} TrimKeepsValue(b: Bytes)
    ensures BigEndian(Trimmed(b)) == BigEndian(b) && (Trimmed(b) != [] ==> Trimmed(b)[0] != 0)
  {
    if b != [] && b[0] == 0 {
      LeadingZero(b);
      TrimKeepsValue(b[1..]);
    }
  }

  lemma {:induction false} LeadingDigitCounts(b: Bytes)
    requires b != [] && b[0] != 0
    ensures BigEndian(b) > 0
  {
    if |b| == 1 {
      assert b[..0] == [];
    } else {
      LeadingDigitCounts(b[..|b| - 1]);
    }
  }

  lemma {:induction false} NumberFixesBytes(a: Bytes, b: Bytes)
    requires (a != [] ==> a[0] != 0) && (b != [] ==> b[0] != 0) && BigEndian(a) == BigEndian(b)
    ensures a == b
    decreases |a|
  {
    if a != [] { LeadingDigitCounts(a); }
    if b != [] { LeadingDigitCounts(b); }
    if a != [] && b != [] {
      var a', b' := a[..|a| - 1], b[..|b| - 1];
      assert a[|a| - 1] == b[|b| - 1] && BigEndian(a') == BigEndian(b');
      assert |a| == 1 ==> BigEndian(a') == 0;
      assert |b| == 1 ==> BigEndian(b') == 0;
      NumberFixesBytes(a', b');
      assert a == a' + [a[|a| - 1]] && b == b' + [b[|b| - 1]];
    }
  }

  /** Trimmed byte strings are equal exactly when they write the same number. */
  lemma TrimmedEqualMeansSameNumber(a: Bytes, b: Bytes)
    ensures Trimmed(a) == Trimmed(b) <==> BigEndian(a) == BigEndian(b)
  {
    TrimKeepsValue(a);
    TrimKeepsValue(b);
    if BigEndian(a) == BigEndian(b) { NumberFixesBytes(Trimmed(a), Trimmed(b)); }
  }

  /** The public area's key is the credential's exactly when modulus and exponent are the same numbers,
      however either side pads them. */
  method KeyMatches(n: Bytes, e: Bytes, cn: Bytes, ce: Bytes) returns (same: bool)
    ensures same <==> BigEndian(n) == BigEndian(cn) && BigEndian(e) == BigEndian(ce)
  {
    var n0 := Trim0(n);
    var cn0 := Trim0(cn);
    var e0 := Trim0(e);
    var ce0 := Trim0(ce);
    TrimmedEqualMeansSameNumber(n, cn);
    TrimmedEqualMeansSameNumber(e, ce);
    same := n0 == cn0 && e0 == ce0;
  }
}
