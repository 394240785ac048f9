/**
 * Ingestion of JSON web key sets: the per-record checks of `readKeys`, the
 * RSA decoding of `parseKey`, and the store of accepted keys under their key
 * identifiers. A key set arrives already decoded from JSON as a sequence of
 * records with the six string fields of `keyData` (absent fields are empty).
 * The modulus and exponent are Base64urlUInt values (section 6.3.1 of
 * RFC 7518).
 */
module Jwks {
  import opened Wrappers
  import opened Base64Url
  import opened BigEndian

  /** One record of the `keys` array of a key-set document. */
  datatype KeyData = KeyData(kid: string, kty: string, alg: string, use: string, n: string, e: string)

  /** `rsa.PublicKey`: the exponent is a Go `int` (64 bits). */
  datatype RsaKey = RsaKey(n: nat, e: int)

  datatype ParseError = UnsupportedKeyType(kty: string) | InvalidModulus | InvalidExponent

  /**
   * `parseKey`: only the case-sensitive key type "RSA" is accepted, and both
   * numbers must decode as unpadded base64url.
   */
  function ParseKey(d: KeyData): (r: Result<RsaKey, ParseError>)
    ensures r.Success? <==> d.kty == "RSA" && Decode(d.n).Some? && Decode(d.e).Some?
    ensures d.kty != "RSA" ==> r == Failure(UnsupportedKeyType(d.kty))
    ensures d.kty == "RSA" && Decode(d.n).None? ==> r == Failure(InvalidModulus)
    ensures d.kty == "RSA" && Decode(d.n).Some? && Decode(d.e).None? ==> r == Failure(InvalidExponent)
    ensures r.Success? ==> r.value.n == Value(Decode(d.n).value)
    ensures r.Success? ==> r.value.e == ToInt64(Value(Decode(d.e).value))
  {
    if d.kty != "RSA" then Failure(UnsupportedKeyType(d.kty))
    else match (Decode(d.n), Decode(d.e))
      case (None, _) => Failure(InvalidModulus)
      case (_, None) => Failure(InvalidExponent)
      case (Some(nb), Some(eb)) => Success(RsaKey(Value(nb), ToInt64(Value(eb))))
  }

  /** Why `readKeys` skips a record. */
  datatype Rejection = EmptyKid | EmptyKty | EmptyAlg | EmptyE | EmptyN | Unparseable(cause: ParseError)

  /**
   * The checks `readKeys` applies to one record, in their order. The check
   * meant for an empty `n` tests `e` a second time, so it never fires and an
   * empty `n` goes on to `parseKey`, where it decodes to the empty byte
   * string. A record is accepted exactly when its identifier, algorithm and
   * exponent are non-empty, its type is "RSA" and both numbers decode.
   */
  function CheckRecord(d: KeyData): (r: Result<RsaKey, Rejection>)
    ensures r.Success? <==>
      && d.kid != "" && d.kty == "RSA" && d.alg != "" && d.e != ""
      && Decode(d.n).Some? && Decode(d.e).Some?
    ensures r.Success? ==> r.value == ParseKey(d).value
  {
    if d.kid == "" then Failure(EmptyKid)
    else if d.kty == "" then Failure(EmptyKty)
    else if d.alg == "" then Failure(EmptyAlg)
    else if d.e == "" then Failure(EmptyE)
    else if d.e == "" then Failure(EmptyN)
    else match ParseKey(d)
      case Failure(cause) => Failure(Unparseable(cause))
      case Success(key) => Success(key)
  }

  predicate Accepted(d: KeyData) {
    CheckRecord(d).Success?
  }

  /**
   * `h.keys.Store(kid, key)` for an accepted record: its identifier now maps
   * to the parsed key and every other entry stays; a rejected record is
   * skipped.
   */
  function Store(m: map<string, RsaKey>, d: KeyData): (r: map<string, RsaKey>)
    ensures Accepted(d) ==> d.kid in r && r[d.kid] == ParseKey(d).value
    ensures !Accepted(d) ==> r == m
    ensures forall k :: k in m && k != d.kid ==> k in r && r[k] == m[k]
    ensures forall k :: k in r ==> k in m || k == d.kid
  {
    match CheckRecord(d)
    case Success(key) => m[d.kid := key]
    case Failure(_) => m
  }

  /** Some accepted record of a document carries the identifier `k`. */
  predicate Supplies(recs: seq<KeyData>, k: string) {
    exists i :: 0 <= i < |recs| && Accepted(recs[i]) && recs[i].kid == k
  }

  /** The loop of `readKeys` over the records of one document, in order. */
  function Ingest(m: map<string, RsaKey>, recs: seq<KeyData>): map<string, RsaKey> {
    if recs == [] then m else Store(Ingest(m, recs[..|recs| - 1]), recs[|recs| - 1])
  }

  /**
   * No key appears from nowhere: every identifier after reading a document
   * was there before or is carried by an accepted record of it.
   */
  lemma {:induction false} IngestSupplied(m: map<string, RsaKey>, recs: seq<KeyData>, k: string)
    requires k in Ingest(m, recs)
    ensures k in m || Supplies(recs, k)
  {
    if recs != [] {
      var front := recs[..|recs| - 1];
      if k in Ingest(m, front) {
        IngestSupplied(m, front, k);
        if Supplies(front, k) {
          var i :| 0 <= i < |front| && Accepted(front[i]) && front[i].kid == k;
          assert recs[i] == front[i];
        }
      }
    }
  }

  lemma {:induction false} IngestAppend(m: map<string, RsaKey>, a: seq<KeyData>, b: seq<KeyData>)
    ensures Ingest(m, a + b) == Ingest(Ingest(m, a), b)
  {
    if b != [] {
      assert (a + b)[..|a + b| - 1] == a + b[..|b| - 1];
      assert (a + b)[|a + b| - 1] == b[|b| - 1];
      IngestAppend(m, a, b[..|b| - 1]);
    } else {
      assert a + b == a;
    }
  }

  /** A rejected record is skipped without affecting the records around it. */
  lemma IngestSkipsRejected(m: map<string, RsaKey>, a: seq<KeyData>, r: KeyData, b: seq<KeyData>)
    requires !Accepted(r)
    ensures Ingest(m, a + [r] + b) == Ingest(m, a + b)
  {
    IngestAppend(m, a + [r], b);
    IngestAppend(m, a, b);
    assert (a + [r])[..|a + [r]| - 1] == a;
  }

  /**
   * An identifier that no accepted record carries keeps the entry it had
   * before the document was read (or stays absent).
   */
  lemma {:induction false} IngestKeepsOthers(m: map<string, RsaKey>, recs: seq<KeyData>, k: string)
    requires forall i :: 0 <= i < |recs| && Accepted(recs[i]) ==> recs[i].kid != k
    ensures k in Ingest(m, recs) <==> k in m
    ensures k in m ==> Ingest(m, recs)[k] == m[k]
  {
    if recs != [] {
      IngestKeepsOthers(m, recs[..|recs| - 1], k);
    }
  }

  /**
   * An accepted record is stored under its identifier, and the last accepted
   * record with a given identifier is the one that stays.
   */
  lemma {:induction false} IngestLastWins(m: map<string, RsaKey>, recs: seq<KeyData>, i: nat)
    requires i < |recs| && Accepted(recs[i])
    requires forall j :: i < j < |recs| && Accepted(recs[j]) ==> recs[j].kid != recs[i].kid
    ensures recs[i].kid in Ingest(m, recs)
    ensures Ingest(m, recs)[recs[i].kid] == ParseKey(recs[i]).value
  {
    if i < |recs| - 1 {
      IngestLastWins(m, recs[..|recs| - 1], i);
    }
  }

  /** Keys are never removed: reading a document only adds or overwrites entries. */
  lemma {:induction false} IngestGrows(m: map<string, RsaKey>, recs: seq<KeyData>)
    ensures m.Keys <= Ingest(m, recs).Keys
  {
    if recs != [] {
      IngestGrows(m, recs[..|recs| - 1]);
    }
  }

  /** Where a key set comes from: a configured file or a configured URL. */
  datatype Source = KeysFile(path: string) | KeysURL(addr: string)

  /** The order `loadKeys` reads the sources in: every file, then every URL. */
  function SourcesOf(files: seq<string>, urls: seq<string>): (s: seq<Source>)
    ensures |s| == |files| + |urls|
    ensures forall i :: 0 <= i < |files| ==> s[i] == KeysFile(files[i])
    ensures forall j :: 0 <= j < |urls| ==> s[|files| + j] == KeysURL(urls[j])
  {
    seq(|files|, i requires 0 <= i < |files| => KeysFile(files[i]))
    + seq(|urls|, i requires 0 <= i < |urls| => KeysURL(urls[i]))
  }

  /** The files come first, then the URLs. */
  lemma SourcesOfSplit(files: seq<string>, urls: seq<string>)
    ensures SourcesOf(files, urls) == SourcesOf(files, []) + SourcesOf([], urls)
  {
  }

  /**
   * The reading, fetching and JSON decoding of a source, as seen at one
   * reload: the records of its document, or `None` when any of these failed.
   */
  type Fetch = Source -> Option<seq<KeyData>>

  /** One source of `loadKeys`: a failure is logged and the source skipped. */
  function LoadSource(m: map<string, RsaKey>, doc: Option<seq<KeyData>>): map<string, RsaKey> {
    match doc
    case None => m
    case Some(recs) => Ingest(m, recs)
  }

  /** The document of `src`, as fetched, supplies the identifier `k`. */
  predicate SourceSupplies(fetch: Fetch, src: Source, k: string) {
    fetch(src).Some? && Supplies(fetch(src).value, k)
  }

  /** `loadKeys` over a sequence of sources, in order. */
  function LoadAll(m: map<string, RsaKey>, srcs: seq<Source>, fetch: Fetch): map<string, RsaKey> {
    if srcs == [] then m
    else LoadSource(LoadAll(m, srcs[..|srcs| - 1], fetch), fetch(srcs[|srcs| - 1]))
  }

  /**
   * Every identifier after a reload was cached before or is supplied by
   * one of the sources.
   */
  lemma {:induction false} LoadAllSupplied(m: map<string, RsaKey>, srcs: seq<Source>, fetch: Fetch, k: string)
    requires k in LoadAll(m, srcs, fetch)
    ensures k in m || exists i :: 0 <= i < |srcs| && SourceSupplies(fetch, srcs[i], k)
  {
    if srcs != [] {
      var front := srcs[..|srcs| - 1];
      var last := srcs[|srcs| - 1];
      var before := LoadAll(m, front, fetch);
      if k in before {
        LoadAllSupplied(m, front, fetch, k);
        if !(k in m) {
          var i :| 0 <= i < |front| && SourceSupplies(fetch, front[i], k);
          assert srcs[i] == front[i];
        }
      } else {
        var doc := fetch(last);
        assert doc.Some?;
        IngestSupplied(before, doc.value, k);
        assert SourceSupplies(fetch, srcs[|srcs| - 1], k);
      }
    }
  }

  /** Loading one more source of a sequence. */
  lemma LoadAllStep(m: map<string, RsaKey>, srcs: seq<Source>, k: nat, fetch: Fetch)
    requires k < |srcs|
    ensures LoadAll(m, srcs[..k + 1], fetch) == LoadSource(LoadAll(m, srcs[..k], fetch), fetch(srcs[k]))
  {
    assert srcs[..k + 1][..k] == srcs[..k];
  }

  lemma {:induction false} LoadAllAppend(m: map<string, RsaKey>, a: seq<Source>, b: seq<Source>, fetch: Fetch)
    ensures LoadAll(m, a + b, fetch) == LoadAll(LoadAll(m, a, fetch), b, fetch)
  {
    if b != [] {
      assert (a + b)[..|a + b| - 1] == a + b[..|b| - 1];
      LoadAllAppend(m, a, b[..|b| - 1], fetch);
    } else {
      assert a + b == a;
    }
  }

  /** A source that cannot be read does not stop the sources after it. */
  lemma LoadAllSkipsFailedSource(m: map<string, RsaKey>, a: seq<Source>, s: Source, b: seq<Source>, fetch: Fetch)
    requires fetch(s).None?
    ensures LoadAll(m, a + [s] + b, fetch) == LoadAll(m, a + b, fetch)
  {
    LoadAllAppend(m, a + [s], b, fetch);
    LoadAllAppend(m, a, b, fetch);
    assert (a + [s])[..|a + [s]| - 1] == a;
  }

  /** A reload never evicts a key. */
  lemma {:induction false} LoadAllGrows(m: map<string, RsaKey>, srcs: seq<Source>, fetch: Fetch)
    ensures m.Keys <= LoadAll(m, srcs, fetch).Keys
  {
    if srcs != [] {
      LoadAllGrows(m, srcs[..|srcs| - 1], fetch);
      var doc := fetch(srcs[|srcs| - 1]);
      if doc.Some? {
        IngestGrows(LoadAll(m, srcs[..|srcs| - 1], fetch), doc.value);
      }
    }
  }

  /**
   * A record whose modulus and exponent are written as shortest big-endian
   * base64url parses to that modulus and to the exponent as `Int64()` reads it.
   */
  lemma ParseKeyOfEncoded(kid: string, alg: string, use: string, n: nat, e: nat)
    ensures ParseKey(KeyData(kid, "RSA", alg, use, Encode(ToBytes(n)), Encode(ToBytes(e))))
         == Success(RsaKey(n, ToInt64(e)))
  {
    DecodeEncode(ToBytes(n));
    DecodeEncode(ToBytes(e));
    ValueOfToBytes(n);
    ValueOfToBytes(e);
  }

  /**
   * The key parsed from a record is the key that was encoded into it: with
   * the modulus and exponent written as shortest big-endian base64url, the
   * modulus comes back exactly and the exponent too when it fits in 63 bits.
   */
  lemma ParseKeyRecoversEncodedKey(kid: string, alg: string, use: string, n: nat, e: nat)
    requires e < TwoTo63
    ensures ParseKey(KeyData(kid, "RSA", alg, use, Encode(ToBytes(n)), Encode(ToBytes(e))))
         == Success(RsaKey(n, e))
  {
    ParseKeyOfEncoded(kid, alg, use, n, e);
  }

  /**
   * An exponent beyond 63 bits is kept only modulo 2^64, as `Int64()` does:
   * one with bit 63 set and nothing above it is read back negative, as
   * `e - 2^64`.
   */
  lemma ParseKeyTruncatesExponent(kid: string, alg: string, use: string, n: nat, e: nat)
    requires TwoTo63 <= e < TwoTo64
    ensures ParseKey(KeyData(kid, "RSA", alg, use, Encode(ToBytes(n)), Encode(ToBytes(e))))
         == Success(RsaKey(n, e - TwoTo64))
  {
    ParseKeyOfEncoded(kid, alg, use, n, e);
    ToInt64UpperHalf(e);
  }

  /** The common exponent "AQAB" is the bytes 1, 0, 1, that is 65537. */
  lemma DecodeAQAB()
    ensures Decode("AQAB") == Some([1, 0, 1])
    ensures Value([1, 0, 1]) == 65537
  {
    var b: seq<byte> := [1, 0, 1];
    assert b[3..] == [];
    assert EncodeSextets(b) == [0, 16, 0, 1];
    var s := Encode(b);
    assert s == "AQAB" by {
      assert |s| == 4;
      assert s[0] == 'A' && s[1] == 'Q' && s[2] == 'A' && s[3] == 'B';
    }
    DecodeEncode(b);
    assert [1, 0, 1][..2] == [1, 0];
    assert [1, 0][..1] == [1];
  }

  /**
   * A record with an empty modulus is accepted, because the check meant for
   * `n` tests `e` again, and it is stored with modulus 0.
   */
  lemma EmptyModulusAccepted(d: KeyData)
    requires d.kid != "" && d.kty == "RSA" && d.alg != "" && d.e != "" && Decode(d.e).Some?
    requires d.n == ""
    ensures Accepted(d)
    ensures CheckRecord(d).value.n == 0
  {
  }

  /**
   * A key-set document holding one RSA record for "k1" with exponent "AQAB"
   * leaves a key for "k1" whose modulus is the encoded number and whose
   * exponent is 65537, whatever the store held before.
   */
  lemma SingleRecordDocument(m: map<string, RsaKey>, n: nat)
    ensures var d := KeyData("k1", "RSA", "RS256", "sig", Encode(ToBytes(n)), "AQAB");
      && "k1" in Ingest(m, [d])
      && Ingest(m, [d])["k1"] == RsaKey(n, 65537)
  {
    var d := KeyData("k1", "RSA", "RS256", "sig", Encode(ToBytes(n)), "AQAB");
    DecodeAQAB();
    DecodeEncode(ToBytes(n));
    ValueOfToBytes(n);
    assert [d][..0] == [];
  }
}
