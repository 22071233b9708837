/** The canonical request encoding: each field written as its length, a colon, its bytes and a bar
    (internal/authorization/hash.go). A string stands for its bytes. */
module CanonicalEncoding {
  import opened Prelude
  import opened Decimal

  function Field(part: string): string {
    Itoa(|part|) + ":" + part + "|"
  }

  function Encoded(parts: seq<string>): string {
    if parts == [] then "" else Field(parts[0]) + Encoded(parts[1..])
  }

  lemma {:induction false} EncodedAppend(parts: seq<string>, part: string)
    ensures Encoded(parts + [part]) == Encoded(parts) + Field(part)
  {
    if parts == [] {
      assert [part][1..] == [] && parts + [part] == [part];
      assert Encoded([part]) == Field(part) + "";
    } else {
      EncodedAppend(parts[1..], part);
      assert (parts + [part])[1..] == parts[1..] + [part];
      assert Field(parts[0]) + (Encoded(parts[1..]) + Field(part))
             == (Field(parts[0]) + Encoded(parts[1..])) + Field(part);
    }
  }

  /** The loop of RequestHash that writes the fields one after another. */
  method WriteFields(parts: seq<string>) returns (canonical: string)
    ensures canonical == Encoded(parts)
  {
    canonical := "";
    for i := 0 to |parts|
      invariant canonical == Encoded(parts[..i])
    {
      EncodedAppend(parts[..i], parts[i]);
      assert parts[..i] + [parts[i]] == parts[..i + 1];
      var part := parts[i];
      Appended(canonical, part);
      canonical := canonical + Itoa(|part|);
      canonical := canonical + ":";
      canonical := canonical + part;
      canonical := canonical + "|";
    }
    assert parts[..|parts|] == parts;
  }

  lemma Appended(canonical: string, part: string)
    ensures canonical + Itoa(|part|) + ":" + part + "|" == canonical + Field(part)
  {
  }

  /** A field is followed by whatever comes next without ambiguity. */
  lemma FieldSplits(a: string, b: string, x: string, y: string)
    requires Field(a) + x == Field(b) + y
    ensures a == b && x == y
  {
    var p, q := Itoa(|a|), Itoa(|b|);
    var ra, rb := a + "|" + x, b + "|" + y;
    assert Field(a) + x == p + ":" + ra && Field(b) + y == q + ":" + rb;
    FirstMark(':', p, q, ra, rb);
    PrintsApart(|a|, |b|);
    assert a == ra[..|a|] && b == rb[..|b|] && x == ra[|a| + 1..] && y == rb[|b| + 1..];
  }

  /** Unique decodability: equal encodings come from equal lists, whatever digits, colons and bars the
      fields hold. */
  lemma {:induction false} UniquelyDecodable(a: seq<string>, b: seq<string>)
    requires Encoded(a) == Encoded(b)
    ensures a == b
  {
    if a != [] && b != [] {
      FieldSplits(a[0], b[0], Encoded(a[1..]), Encoded(b[1..]));
      UniquelyDecodable(a[1..], b[1..]);
      assert a == [a[0]] + a[1..] && b == [b[0]] + b[1..];
    }
  }

  /** What a request hash is computed from. The printed time-to-live and the trimmed reason are the
      strings the source puts in their place. */
  datatype Request = Request(organization: string, revision: int64, matrixHash: string, requester: string,
                             capability: string, approvalMode: string, resourceType: string, resourceId: string,
                             actionDigest: string, ttl: string, reason: string)

  function Parts(r: Request): seq<string> {
    [r.organization, Itoa(r.revision), r.matrixHash, r.requester, r.capability, r.approvalMode,
     r.resourceType, r.resourceId, r.actionDigest, r.ttl, r.reason]
  }

  /** A collision-free digest, as the free constructor over its input. */
  datatype Digest = Sha256(of: string)

  function RequestHash(r: Request): Digest {
    Sha256(Encoded(Parts(r)))
  }

  /** Equal request hashes mean equal requests, field by field. */
  lemma HashIdentifiesRequest(a: Request, b: Request)
    requires RequestHash(a) == RequestHash(b)
    ensures a == b
  {
    UniquelyDecodable(Parts(a), Parts(b));
    assert Parts(a)[0] == Parts(b)[0] && Parts(a)[1] == Parts(b)[1] && Parts(a)[2] == Parts(b)[2]
           && Parts(a)[3] == Parts(b)[3] && Parts(a)[4] == Parts(b)[4] && Parts(a)[5] == Parts(b)[5]
           && Parts(a)[6] == Parts(b)[6] && Parts(a)[7] == Parts(b)[7] && Parts(a)[8] == Parts(b)[8]
           && Parts(a)[9] == Parts(b)[9] && Parts(a)[10] == Parts(b)[10];
    PrintsApart(a.revision, b.revision);
  }

  function Piece(text: string): string {
    Digits(|text|) + [':'] + text + ['|']
  }

  lemma {:induction false} EncodedTogether(a: seq<string>, b: seq<string>)
    ensures Encoded(a + b) == Encoded(a) + Encoded(b)
  {
    if a == [] {
      assert a + b == b;
    } else {
      assert (a + b)[1..] == a[1..] + b;
      EncodedTogether(a[1..], b);
    }
  }

  lemma AppendPiece(parts: seq<string>, part: string)
    ensures Encoded(parts + [part]) == Encoded(parts) + Piece(part)
  {
    EncodedAppend(parts, part);
  }

  lemma ThreePieces(a: string, b: string, c: string)
    ensures Encoded([a, b, c]) == Piece(a) + Piece(b) + Piece(c)
  {
    AppendPiece([], a);
    AppendPiece([a], b);
    AppendPiece([a, b], c);
    assert [] + [a] == [a] && [a] + [b] == [a, b] && [a, b] + [c] == [a, b, c];
  }

  lemma FivePieces(a: string, b: string, c: string, d: string, e: string)
    ensures Encoded([a, b, c, d, e]) == Piece(a) + Piece(b) + Piece(c) + Piece(d) + Piece(e)
  {
    ThreePieces(a, b, c);
    AppendPiece([a, b, c], d);
    AppendPiece([a, b, c, d], e);
    assert [a, b, c] + [d] == [a, b, c, d] && [a, b, c, d] + [e] == [a, b, c, d, e];
  }

  lemma SixPieces(a: string, b: string, c: string, d: string, e: string, f: string)
    ensures Encoded([a, b, c, d, e, f]) == Piece(a) + Piece(b) + Piece(c) + Piece(d) + Piece(e) + Piece(f)
  {
    FivePieces(a, b, c, d, e);
    AppendPiece([a, b, c, d, e], f);
    assert [a, b, c, d, e] + [f] == [a, b, c, d, e, f];
  }

  /** What is hashed: eleven fields in this order, each as its length in decimal, a colon, its bytes and a bar. */
  lemma FormatExact(r: Request)
    ensures RequestHash(r).of
            == (Piece(r.organization) + Piece(Itoa(r.revision)) + Piece(r.matrixHash) + Piece(r.requester)
                + Piece(r.capability) + Piece(r.approvalMode))
               + (Piece(r.resourceType) + Piece(r.resourceId) + Piece(r.actionDigest) + Piece(r.ttl) + Piece(r.reason))
  {
    var first := [r.organization, Itoa(r.revision), r.matrixHash, r.requester, r.capability, r.approvalMode];
    var rest := [r.resourceType, r.resourceId, r.actionDigest, r.ttl, r.reason];
    assert Parts(r) == first + rest;
    EncodedTogether(first, rest);
    SixPieces(r.organization, Itoa(r.revision), r.matrixHash, r.requester, r.capability, r.approvalMode);
    FivePieces(r.resourceType, r.resourceId, r.actionDigest, r.ttl, r.reason);
  }
}
