/** The envelope a creator's parameter travels in: printed by the browser (frontend/src/lib/secrets.ts),
    recognised by the backend (backend/src/lib/secret-envelope.ts), parsed by the creator's own tooling. */
module SecretEnvelope {
  import opened Collections
  import opened Text
  import opened Base64

  datatype Scheme = LocalDev | Tdh2

  function Tag(scheme: Scheme): string {
    match scheme
    case LocalDev => "local-dev"
    case Tdh2 => "tdh2-p256-aesgcm"
  }

  const NONCE_BYTES := 12
  const TAG_BYTES := 16
  const ENVELOPE_VERSION := "v1"

  datatype Part = Part(what: string, minBytes: nat, maxBytes: Option<nat>)

  /** The parts each scheme emits after its tag and version. */
  function Shape(scheme: Scheme): seq<Part> {
    match scheme
    case LocalDev => [Part("iv", NONCE_BYTES, Some(NONCE_BYTES)), Part("ciphertext", TAG_BYTES, None)]
    case Tdh2 => [Part("nonce", NONCE_BYTES, None), Part("TDH2 ciphertext", TAG_BYTES, None),
                  Part("symmetric ciphertext", TAG_BYTES, None)]
  }

  datatype Complaint =
    | HasWhitespace
    | ProducedBy(other: Scheme)
    | NotAnEnvelope
    | NoVersion
    | WrongPartCount(parts: nat)
    | NotBase64(what: string)
    | TooShort(what: string, bytes: nat)
    | TooLong(what: string, bytes: nat)

  // ---------------------------------------------------------------- recognising a part

  /** `^(?:[A-Za-z0-9+/]{4})*(?:[A-Za-z0-9+/]{2}==|[A-Za-z0-9+/]{3}=)?$` */
  predicate MatchesBase64(s: string) {
    || s == []
    || (|s| == 4 && AllDigits(s[..2]) && s[2] == '=' && s[3] == '=')
    || (|s| == 4 && AllDigits(s[..3]) && s[3] == '=')
    || (|s| >= 4 && AllDigits(s[..4]) && MatchesBase64(s[4..]))
  }

  lemma {:induction false} MatchedIsPadded(s: string)
    requires MatchesBase64(s)
    ensures AllDigits(Unpadded(s)) && |s| % 4 == 0
  {
    if |s| > 4 {
      var rest := s[4..];
      MatchedIsPadded(rest);
      GroupBefore(s[..4], rest);
      assert s == s[..4] + rest;
    } else if |s| == 4 {
      LastGroup(s);
    }
  }

  lemma GroupBefore(group: string, rest: string)
    requires |group| == 4 && AllDigits(group) && rest != [] && |rest| % 4 == 0 && AllDigits(Unpadded(rest))
    ensures AllDigits(Unpadded(group + rest)) && |group + rest| % 4 == 0
  {
    UnpaddedApart(group, rest);
  }

  lemma UnpaddedApart(group: string, rest: string)
    requires |rest| >= 2
    ensures Unpadded(group + rest) == group + Unpadded(rest)
  {
    var s := group + rest;
    assert s[|s| - 1] == rest[|rest| - 1] && s[|s| - 2] == rest[|rest| - 2];
  }

  lemma LastGroup(s: string)
    requires |s| == 4 && MatchesBase64(s)
    ensures AllDigits(Unpadded(s))
  {
    if s[3] == '=' && s[2] == '=' {
      assert Unpadded(s) == s[..2];
      assert forall i :: 0 <= i < 2 ==> s[..2][i] == s[..3][i];
    } else if s[3] == '=' {
      assert Unpadded(s) == s[..3];
    } else {
      assert s[..4] == s;
    }
  }

  lemma {:induction false} PaddedIsMatched(s: string)
    requires AllDigits(Unpadded(s)) && |s| % 4 == 0
    ensures MatchesBase64(s)
    decreases |s|
  {
    if |s| >= 4 && Unpadded(s) == s {
      assert Unpadded(s[4..]) == s[4..];
      assert forall i :: 0 <= i < |s[4..]| ==> s[4..][i] == s[i + 4];
      PaddedIsMatched(s[4..]);
    } else if |s| == 4 {
      assert forall i :: 0 <= i < |Unpadded(s)| ==> Unpadded(s)[i] == s[i];
    } else if |s| > 4 {
      var rest := s[4..];
      assert |rest| >= 4;
      UnpaddedApart(s[..4], rest);
      assert s == s[..4] + rest;
      assert forall i :: 0 <= i < 4 ==> s[i] == Unpadded(s)[i];
      assert forall i :: 0 <= i < |Unpadded(rest)| ==> Unpadded(rest)[i] == Unpadded(s)[i + 4];
      PaddedIsMatched(rest);
    }
  }

  /** Node's `Buffer.from(part, 'base64')` on a part of the right shape. */
  function BufferFrom(part: string): seq<Byte>
    requires MatchesBase64(part)
  {
    MatchedIsPadded(part);
    match Bytes(Values(Unpadded(part)))
    case None => []
    case Some(bytes) => bytes
  }

  function DecodedBytes(part: string): Option<nat> {
    if |part| == 0 || |part| % 4 != 0 || !MatchesBase64(part) then None
    else
      var bytes := BufferFrom(part);
      if Encode(bytes) == part then Some(|bytes|) else None
  }

  lemma EncodedIsMatched(bytes: seq<Byte>)
    ensures MatchesBase64(Encode(bytes)) && BufferFrom(Encode(bytes)) == bytes
  {
    EncodeShape(bytes);
    PaddedIsMatched(Encode(bytes));
    ValuesOfSpelled(Sextets(bytes));
    BytesOfSextets(bytes);
  }

  /** A part is counted exactly when it is what some bytes encode to, and then as those bytes. */
  lemma DecodedIffEncoded(part: string, n: nat)
    ensures DecodedBytes(part) == Some(n) <==> exists bytes :: Encode(bytes) == part && |bytes| == n && n > 0
  {
    assert Encode([]) == [];
    if DecodedBytes(part) == Some(n) {
      var bytes := BufferFrom(part);
      assert Encode(bytes) == part && |bytes| == n;
    }
    if bytes :| Encode(bytes) == part && |bytes| == n && n > 0 {
      EncodeShape(bytes);
      EncodedIsMatched(bytes);
    }
  }

  lemma SameSextets(bytes: seq<Byte>, part: string)
    requires AllDigits(Unpadded(part)) && |part| % 4 == 0
    ensures Encode(bytes) == part <==> Sextets(bytes) == Values(Unpadded(part))
  {
    EncodeShape(bytes);
    SpelledOfValues(Unpadded(part));
    ValuesOfSpelled(Sextets(bytes));
    if Sextets(bytes) == Values(Unpadded(part)) {
      SameUnpadded(Encode(bytes), part);
    }
  }

  /** Of the parts with the right shape, the refused ones are those with a bit set past the last
      whole byte. */
  lemma RefusedIffStrayBits(part: string)
    requires MatchesBase64(part) && part != []
    ensures AllDigits(Unpadded(part))
    ensures DecodedBytes(part) == None <==> !NoStrayBits(Values(Unpadded(part)))
  {
    MatchedIsPadded(part);
    UnpaddedLength(part);
    BackAndForth(Values(Unpadded(part)));
    SameSextets(BufferFrom(part), part);
  }

  lemma UnpaddedLength(part: string)
    requires |part| % 4 == 0
    ensures |Unpadded(part)| % 4 != 1
  {
  }

  lemma BackAndForth(d: seq<Sextet>)
    requires |d| % 4 != 1
    ensures Bytes(d).Some? && (Sextets(Bytes(d).value) == d <==> NoStrayBits(d))
  {
    BytesExist(d);
    SextetsOfBytes(d);
  }

  lemma SameUnpadded(a: string, b: string)
    requires Unpadded(a) == Unpadded(b) && |a| % 4 == 0 && |b| % 4 == 0
    ensures a == b
  {
    assert |a| == |b|;
    var n := |Unpadded(a)|;
    assert a[..n] == b[..n];
    assert forall i :: n <= i < |a| ==> a[i] == '=' && b[i] == '=';
    assert forall i :: 0 <= i < n ==> a[i] == a[..n][i] && b[i] == b[..n][i];
  }

  // ---------------------------------------------------------------- recognising an envelope

  predicate HasSpace(s: string) { exists i :: 0 <= i < |s| && IsSpace(s[i]) }

  predicate IsNumeral(s: string) { forall i :: 0 <= i < |s| ==> '0' <= s[i] <= '9' }

  /** `^v\d+$` */
  predicate IsVersion(s: string) { |s| >= 2 && s[0] == 'v' && IsNumeral(s[1..]) }

  function PartComplaint(part: string, shape: Part): Option<Complaint> {
    match DecodedBytes(part)
    case None => Some(NotBase64(shape.what))
    case Some(bytes) =>
      if bytes < shape.minBytes then Some(TooShort(shape.what, bytes))
      else if shape.maxBytes.Some? && bytes > shape.maxBytes.value then Some(TooLong(shape.what, bytes))
      else None
  }

  /** The loop over the parts stops at the first complaint. */
  function First(complaints: seq<Option<Complaint>>): Option<Complaint> {
    if complaints == [] then None
    else if complaints[0].Some? then complaints[0]
    else First(complaints[1..])
  }

  function PartComplaints(parts: seq<string>, shape: seq<Part>): seq<Option<Complaint>>
    requires |parts| == |shape|
  {
    seq(|shape|, i requires 0 <= i < |shape| => PartComplaint(parts[i], shape[i]))
  }

  function EnvelopeComplaint(value: string, scheme: Scheme): Option<Complaint> {
    if HasSpace(value) then Some(HasWhitespace) else PiecesComplaint(Split(value, '.'), scheme)
  }

  function PiecesComplaint(pieces: seq<string>, scheme: Scheme): Option<Complaint>
    requires pieces != []
  {
    if pieces[0] != Tag(scheme) then
      if pieces[0] == Tag(LocalDev) then Some(ProducedBy(LocalDev))
      else if pieces[0] == Tag(Tdh2) then Some(ProducedBy(Tdh2))
      else Some(NotAnEnvelope)
    else if |pieces| < 2 || !IsVersion(pieces[1]) then Some(NoVersion)
    else if |pieces| - 2 != |Shape(scheme)| then Some(WrongPartCount(|pieces| - 2))
    else First(PartComplaints(pieces[2..], Shape(scheme)))
  }

  // ---------------------------------------------------------------- printing

  function Encoded(blobs: seq<seq<Byte>>): seq<string> {
    seq(|blobs|, i requires 0 <= i < |blobs| => Encode(blobs[i]))
  }

  function Printed(scheme: Scheme, version: string, blobs: seq<seq<Byte>>): string {
    Join([Tag(scheme), version] + Encoded(blobs), '.')
  }

  predicate Fits(bytes: nat, shape: Part) {
    shape.minBytes <= bytes && (shape.maxBytes.Some? ==> bytes <= shape.maxBytes.value)
  }

  predicate AllFit(blobs: seq<seq<Byte>>, shape: seq<Part>) {
    |blobs| == |shape| && forall i :: 0 <= i < |blobs| ==> Fits(|blobs[i]|, shape[i])
  }

  /** What a scheme's own code can produce under some version. */
  predicate Producible(scheme: Scheme, version: string, blobs: seq<seq<Byte>>) {
    IsVersion(version) && AllFit(blobs, Shape(scheme))
  }

  /** frontend/src/lib/secrets.ts, `envelope`. */
  method PrintEnvelope(iv: seq<Byte>, ciphertext: seq<Byte>) returns (text: string)
    ensures text == Printed(LocalDev, ENVELOPE_VERSION, [iv, ciphertext])
  {
    var ivPart := ToBase64(iv);
    var ciphertextPart := ToBase64(ciphertext);
    assert Encoded([iv, ciphertext]) == [ivPart, ciphertextPart];
    text := Join(["local-dev", ENVELOPE_VERSION] + [ivPart, ciphertextPart], '.');
  }

  lemma PiecesAreClean(scheme: Scheme, version: string, blobs: seq<seq<Byte>>, piece: nat, i: nat)
    requires IsVersion(version)
    requires piece < 2 + |blobs| && i < |([Tag(scheme), version] + Encoded(blobs))[piece]|
    ensures var c := ([Tag(scheme), version] + Encoded(blobs))[piece][i]; c != '.' && !IsSpace(c)
  {
    if piece >= 2 {
      EncodedIsClean(blobs[piece - 2], i);
    } else if piece == 1 {
      assert i > 0 ==> version[i] == version[1..][i - 1];
    } else {
      TagIsClean(scheme, i);
    }
  }

  lemma EncodedIsClean(blob: seq<Byte>, i: nat)
    requires i < |Encode(blob)|
    ensures Encode(blob)[i] != '.' && !IsSpace(Encode(blob)[i])
  {
    EncodeCharacters(blob, i);
  }

  lemma TagIsClean(scheme: Scheme, i: nat)
    requires i < |Tag(scheme)|
    ensures 'a' <= Tag(scheme)[i] <= 'z' || Tag(scheme)[i] == '-' || '0' <= Tag(scheme)[i] <= '9'
  {
  }

  /** A printed envelope holds no white space and splits into the pieces it was joined from. */
  lemma PrintedSplits(scheme: Scheme, version: string, blobs: seq<seq<Byte>>)
    requires IsVersion(version)
    ensures !HasSpace(Printed(scheme, version, blobs))
    ensures Split(Printed(scheme, version, blobs), '.') == [Tag(scheme), version] + Encoded(blobs)
  {
    var pieces := [Tag(scheme), version] + Encoded(blobs);
    forall piece, i | 0 <= piece < |pieces| && 0 <= i < |pieces[piece]|
      ensures pieces[piece][i] != '.' && !IsSpace(pieces[piece][i])
    {
      PiecesAreClean(scheme, version, blobs, piece, i);
    }
    CleanPiecesSplit(pieces);
  }

  predicate Clean(pieces: seq<string>) {
    forall piece, i :: 0 <= piece < |pieces| && 0 <= i < |pieces[piece]| ==> pieces[piece][i] != '.' && !IsSpace(pieces[piece][i])
  }

  lemma CleanPiecesSplit(pieces: seq<string>)
    requires Clean(pieces) && pieces != []
    ensures !HasSpace(Join(pieces, '.')) && Split(Join(pieces, '.'), '.') == pieces
  {
    SplitOfJoin(pieces, '.');
    var text := Join(pieces, '.');
    forall i | 0 <= i < |text| ensures !IsSpace(text[i]) {
      JoinHolds(pieces, '.', text[i]);
    }
  }

  lemma {:induction false} FirstMeans(complaints: seq<Option<Complaint>>)
    ensures First(complaints) == None <==> forall i :: 0 <= i < |complaints| ==> complaints[i] == None
    decreases |complaints|
  {
    if complaints != [] {
      var rest := complaints[1..];
      FirstMeans(rest);
      assert forall i :: 0 < i < |complaints| ==> complaints[i] == rest[i - 1];
      if First(complaints) == None {
        forall i | 0 <= i < |complaints| ensures complaints[i] == None {
          assert i > 0 ==> complaints[i] == rest[i - 1];
        }
      }
    }
  }

  lemma FittingPartPasses(blob: seq<Byte>, shape: Part)
    requires Fits(|blob|, shape) && shape.minBytes > 0
    ensures PartComplaint(Encode(blob), shape) == None
  {
    DecodedIffEncoded(Encode(blob), |blob|);
  }

  lemma PassingPartFits(part: string, shape: Part)
    requires PartComplaint(part, shape) == None
    ensures MatchesBase64(part) && Encode(BufferFrom(part)) == part && Fits(|BufferFrom(part)|, shape)
  {
  }

  lemma TwoAndRest(pieces: seq<string>)
    requires |pieces| >= 2
    ensures pieces == [pieces[0], pieces[1]] + pieces[2..]
  {
  }

  lemma AcceptedPieces(value: string, scheme: Scheme) returns (pieces: seq<string>, shape: seq<Part>)
    requires EnvelopeComplaint(value, scheme) == None
    ensures pieces == Split(value, '.') && shape == Shape(scheme)
    ensures |pieces| == 2 + |shape| && pieces[0] == Tag(scheme) && IsVersion(pieces[1])
    ensures First(PartComplaints(pieces[2..], shape)) == None
  {
    pieces, shape := Split(value, '.'), Shape(scheme);
  }

  lemma AcceptedIsPrinted(value: string, scheme: Scheme) returns (version: string, blobs: seq<seq<Byte>>)
    requires EnvelopeComplaint(value, scheme) == None
    ensures Producible(scheme, version, blobs) && value == Printed(scheme, version, blobs)
  {
    var pieces, shape := AcceptedPieces(value, scheme);
    version := pieces[1];
    blobs := BlobsOf(pieces[2..], shape);
    TwoAndRest(pieces);
    JoinOfSplit(value, '.');
  }

  lemma BlobsOf(parts: seq<string>, shape: seq<Part>) returns (blobs: seq<seq<Byte>>)
    requires |parts| == |shape| && First(PartComplaints(parts, shape)) == None
    ensures AllFit(blobs, shape) && Encoded(blobs) == parts
  {
    FirstMeans(PartComplaints(parts, shape));
    forall i | 0 <= i < |parts|
      ensures MatchesBase64(parts[i]) && Encode(BufferFrom(parts[i])) == parts[i] && Fits(|BufferFrom(parts[i])|, shape[i])
    {
      assert PartComplaints(parts, shape)[i] == None;
      PassingPartFits(parts[i], shape[i]);
    }
    blobs := seq(|parts|, i requires 0 <= i < |parts| => BufferFrom(parts[i]));
  }

  lemma PrintedIsAccepted(scheme: Scheme, version: string, blobs: seq<seq<Byte>>)
    requires Producible(scheme, version, blobs)
    ensures EnvelopeComplaint(Printed(scheme, version, blobs), scheme) == None
  {
    var shape := Shape(scheme);
    PrintedSplits(scheme, version, blobs);
    forall i | 0 <= i < |shape| ensures PartComplaints(Encoded(blobs), shape)[i] == None {
      assert Fits(|blobs[i]|, shape[i]);
      FittingPartPasses(blobs[i], shape[i]);
    }
    FirstMeans(PartComplaints(Encoded(blobs), shape));
    assert ([Tag(scheme), version] + Encoded(blobs))[2..] == Encoded(blobs);
  }

  /** The recogniser accepts exactly the envelopes that code of that scheme can print. */
  lemma AcceptedIffProducible(value: string, scheme: Scheme)
    ensures EnvelopeComplaint(value, scheme) == None <==>
            exists version, blobs :: Producible(scheme, version, blobs) && value == Printed(scheme, version, blobs)
  {
    if EnvelopeComplaint(value, scheme) == None {
      var version, blobs := AcceptedIsPrinted(value, scheme);
    }
    if version, blobs :| Producible(scheme, version, blobs) && value == Printed(scheme, version, blobs) {
      PrintedIsAccepted(scheme, version, blobs);
    }
  }

  /** An envelope tells its scheme, its version and every byte of its parts. */
  lemma PrintedIsInjective(scheme: Scheme, version: string, blobs: seq<seq<Byte>>,
                           scheme': Scheme, version': string, blobs': seq<seq<Byte>>)
    requires IsVersion(version) && IsVersion(version')
    requires Printed(scheme, version, blobs) == Printed(scheme', version', blobs')
    ensures scheme == scheme' && version == version' && blobs == blobs'
  {
    PrintedSplits(scheme, version, blobs);
    PrintedSplits(scheme', version', blobs');
    var pieces := [Tag(scheme), version] + Encoded(blobs);
    var pieces' := [Tag(scheme'), version'] + Encoded(blobs');
    assert pieces == pieces';
    assert pieces[0] == pieces'[0] && pieces[1] == pieces'[1];
    assert pieces[2..] == Encoded(blobs) && pieces'[2..] == Encoded(blobs');
    forall i | 0 <= i < |blobs| ensures blobs[i] == blobs'[i] {
      assert Encoded(blobs)[i] == Encoded(blobs')[i];
      EncodeIsInjective(blobs[i], blobs'[i]);
    }
  }

  // ---------------------------------------------------------------- what is complained about

  lemma SpacedIsRefused(before: string, space: char, after: string, scheme: Scheme)
    requires IsSpace(space)
    ensures EnvelopeComplaint(before + [space] + after, scheme) == Some(HasWhitespace)
  {
    assert (before + [space] + after)[|before|] == space;
  }

  /** An envelope of the other scheme is told by its tag; anything else is no envelope, a bare key with
      no dot in it included. */
  lemma OtherTagIsNamed(scheme: Scheme, other: Scheme, tag: string, rest: seq<string>)
    requires Clean([tag] + rest) && Clean([Tag(other)] + rest) && scheme != other
    ensures EnvelopeComplaint(Join([Tag(other)] + rest, '.'), scheme) == Some(ProducedBy(other))
    ensures tag != Tag(scheme) && tag != Tag(other) ==> EnvelopeComplaint(Join([tag] + rest, '.'), scheme) == Some(NotAnEnvelope)
  {
    CleanPiecesSplit([tag] + rest);
    CleanPiecesSplit([Tag(other)] + rest);
    assert |Tag(LocalDev)| != |Tag(Tdh2)|;
  }

  /** After the right tag: no version, or not that scheme's number of parts. */
  lemma PartsAreCounted(scheme: Scheme, version: string, parts: seq<string>)
    requires Clean([Tag(scheme), version] + parts)
    ensures EnvelopeComplaint(Tag(scheme), scheme) == Some(NoVersion)
    ensures Counted(EnvelopeComplaint(Join([Tag(scheme), version] + parts, '.'), scheme), scheme, version, parts)
  {
    var pieces := [Tag(scheme), version] + parts;
    CleanPiecesSplit(pieces);
    PiecesAreCounted(scheme, version, parts);
    LoneTag(scheme, pieces);
  }

  predicate Counted(complaint: Option<Complaint>, scheme: Scheme, version: string, parts: seq<string>) {
    && (complaint == Some(NoVersion) <==> !IsVersion(version))
    && (complaint == Some(WrongPartCount(|parts|)) <==> IsVersion(version) && |parts| != |Shape(scheme)|)
  }

  lemma LoneTag(scheme: Scheme, pieces: seq<string>)
    requires Clean(pieces) && pieces != [] && pieces[0] == Tag(scheme)
    ensures EnvelopeComplaint(Tag(scheme), scheme) == Some(NoVersion)
  {
    assert Clean([Tag(scheme)]);
    CleanPiecesSplit([Tag(scheme)]);
    assert Join([Tag(scheme)], '.') == Tag(scheme);
  }

  lemma PiecesAreCounted(scheme: Scheme, version: string, parts: seq<string>)
    ensures Counted(PiecesComplaint([Tag(scheme), version] + parts, scheme), scheme, version, parts)
  {
    var pieces := [Tag(scheme), version] + parts;
    assert pieces[0] == Tag(scheme) && pieces[1] == version && pieces[2..] == parts;
    if IsVersion(version) && |parts| == |Shape(scheme)| {
      NamesAPart(parts, Shape(scheme));
    }
  }

  lemma {:induction false} NamesAPart(parts: seq<string>, shape: seq<Part>)
    requires |parts| == |shape|
    ensures var c := First(PartComplaints(parts, shape)); c != Some(NoVersion) && (c.Some? ==> !c.value.WrongPartCount?)
    decreases |parts|
  {
    if parts != [] {
      NamesAPart(parts[1..], shape[1..]);
      assert PartComplaints(parts, shape)[1..] == PartComplaints(parts[1..], shape[1..]);
    }
  }

  lemma {:induction false} FirstIs(complaints: seq<Option<Complaint>>, i: nat)
    requires i < |complaints| && complaints[i].Some? && forall j :: 0 <= j < i ==> complaints[j] == None
    ensures First(complaints) == complaints[i]
    decreases i
  {
    if i > 0 {
      FirstIs(complaints[1..], i - 1);
    }
  }

  /** Some `n` bytes, and at least one, encode to this part. */
  ghost predicate Encodes(part: string, n: nat) { n > 0 && exists bytes :: Encode(bytes) == part && |bytes| == n }

  /** The complaint about a part that is not as its scheme makes it, if it is not. */
  ghost predicate Faulted(part: string, shape: Part, complaint: Option<Complaint>) {
    && ((forall n: nat :: !Encodes(part, n)) ==> complaint == Some(NotBase64(shape.what)))
    && (forall n: nat :: Encodes(part, n) && !Fits(n, shape) ==>
          complaint == Some(if n < shape.minBytes then TooShort(shape.what, n) else TooLong(shape.what, n)))
  }

  predicate SoundUpTo(parts: seq<string>, shape: seq<Part>, good: seq<seq<Byte>>) {
    |good| <= |parts| == |shape| && forall j :: 0 <= j < |good| ==> parts[j] == Encode(good[j]) && Fits(|good[j]|, shape[j])
  }

  lemma SoundUpToPasses(parts: seq<string>, shape: seq<Part>, good: seq<seq<Byte>>, j: nat)
    requires SoundUpTo(parts, shape, good) && j < |good| && shape[j].minBytes > 0
    ensures PartComplaints(parts, shape)[j] == None
  {
    FittingPartPasses(good[j], shape[j]);
  }

  /** The first part that is not as its scheme makes it is the one complained about: it is not the
      encoding of anything, or it encodes too few bytes or too many, and how many it encodes is said. */
  lemma FirstBadPartIsNamed(scheme: Scheme, version: string, parts: seq<string>, i: nat, good: seq<seq<Byte>>)
    requires IsVersion(version) && Clean([Tag(scheme), version] + parts) && |parts| == |Shape(scheme)| && i < |parts|
    requires SoundUpTo(parts, Shape(scheme), good) && |good| == i
    ensures Faulted(parts[i], Shape(scheme)[i], EnvelopeComplaint(Join([Tag(scheme), version] + parts, '.'), scheme))
  {
    ThickShape(scheme);
    FirstBadAmong(parts, Shape(scheme), i, good);
    JudgedByItsParts(scheme, version, parts);
  }

  lemma ThickShape(scheme: Scheme)
    ensures forall j :: 0 <= j < |Shape(scheme)| ==> Shape(scheme)[j].minBytes > 0
  {
  }

  lemma FirstBadAmong(parts: seq<string>, shape: seq<Part>, i: nat, good: seq<seq<Byte>>)
    requires SoundUpTo(parts, shape, good) && |good| == i < |parts| && forall j :: 0 <= j < i ==> shape[j].minBytes > 0
    ensures Faulted(parts[i], shape[i], First(PartComplaints(parts, shape)))
  {
    var complaints := PartComplaints(parts, shape);
    forall j | 0 <= j < i ensures complaints[j] == None {
      SoundUpToPasses(parts, shape, good, j);
    }
    if complaints[i].Some? {
      FirstIs(complaints, i);
      BadPart(parts[i], shape[i]);
    } else {
      SoundPart(parts[i], shape[i], First(complaints));
    }
  }

  lemma JudgedByItsParts(scheme: Scheme, version: string, parts: seq<string>)
    requires IsVersion(version) && Clean([Tag(scheme), version] + parts) && |parts| == |Shape(scheme)|
    ensures EnvelopeComplaint(Join([Tag(scheme), version] + parts, '.'), scheme) == First(PartComplaints(parts, Shape(scheme)))
  {
    CleanPiecesSplit([Tag(scheme), version] + parts);
    assert ([Tag(scheme), version] + parts)[2..] == parts;
  }

  lemma DecodedIs(part: string, n: nat)
    ensures DecodedBytes(part) == Some(n) <==> Encodes(part, n)
  {
    DecodedIffEncoded(part, n);
  }

  lemma BadPart(part: string, shape: Part)
    ensures Faulted(part, shape, PartComplaint(part, shape))
  {
    forall n: nat ensures DecodedBytes(part) == Some(n) <==> Encodes(part, n) {
      DecodedIs(part, n);
    }
  }

  lemma SoundPart(part: string, shape: Part, complaint: Option<Complaint>)
    requires PartComplaint(part, shape) == None
    ensures Faulted(part, shape, complaint)
  {
    forall n: nat ensures DecodedBytes(part) == Some(n) <==> Encodes(part, n) {
      DecodedIs(part, n);
    }
  }

  // ---------------------------------------------------------------- parsing

  datatype ParseError = Unrecognised | Undecodable

  /** The parsing half of `decryptValue` in frontend/src/lib/secrets.ts. */
  function Parse(blob: string): Result<(seq<Byte>, seq<Byte>), ParseError> {
    var parts := Split(blob, '.');
    if |parts| != 4 || parts[0] != Tag(LocalDev) || parts[1] != ENVELOPE_VERSION then Err(Unrecognised)
    else
      match (Decode(parts[2]), Decode(parts[3]))
      case (Some(iv), Some(ciphertext)) => Ok((iv, ciphertext))
      case _ => Err(Undecodable)
  }

  method ParseEnvelope(blob: string) returns (r: Result<(seq<Byte>, seq<Byte>), ParseError>)
    ensures r == Parse(blob)
  {
    var parts := Split(blob, '.');
    if |parts| != 4 || parts[0] != "local-dev" || parts[1] != ENVELOPE_VERSION {
      return Err(Unrecognised);
    }
    var iv := FromBase64(parts[2]);
    if iv == None {
      return Err(Undecodable);
    }
    var ciphertext := FromBase64(parts[3]);
    if ciphertext == None {
      return Err(Undecodable);
    }
    return Ok((iv.value, ciphertext.value));
  }

  /** Four pieces under the browser's own tag and version that do not both decode are told apart from
      what is not its envelope at all. */
  lemma UndecodableIff(pieces: seq<string>)
    requires Clean(pieces) && pieces != []
    ensures var own := |pieces| == 4 && pieces[0] == Tag(LocalDev) && pieces[1] == "v1";
            && (Parse(Join(pieces, '.')) == Err(Unrecognised) <==> !own)
            && (Parse(Join(pieces, '.')) == Err(Undecodable) <==> own && (Decode(pieces[2]) == None || Decode(pieces[3]) == None))
  {
    CleanPiecesSplit(pieces);
    ParsedByPieces(Join(pieces, '.'));
  }

  lemma ParsedByPieces(blob: string)
    ensures var pieces := Split(blob, '.');
            var own := |pieces| == 4 && pieces[0] == Tag(LocalDev) && pieces[1] == "v1";
            && (Parse(blob) == Err(Unrecognised) <==> !own)
            && (Parse(blob) == Err(Undecodable) <==> own && (Decode(pieces[2]) == None || Decode(pieces[3]) == None))
  {
  }

  /** What the browser prints for a nonce of 12 bytes and a ciphertext of at least 16 is accepted,
      and parses back to the same bytes. */
  lemma PrintedIsAcceptedAndRead(iv: seq<Byte>, ciphertext: seq<Byte>)
    requires |iv| == 12 && |ciphertext| >= 16
    ensures var value := "local-dev.v1." + (Encode(iv) + ("." + Encode(ciphertext)));
            && value == Printed(LocalDev, ENVELOPE_VERSION, [iv, ciphertext])
            && EnvelopeComplaint(value, LocalDev) == None && Parse(value) == Ok((iv, ciphertext))
  {
    PrintedText(iv, ciphertext);
    PrintedIsAccepted(LocalDev, ENVELOPE_VERSION, [iv, ciphertext]);
    PrintedSplits(LocalDev, ENVELOPE_VERSION, [iv, ciphertext]);
    DecodeOfEncode(iv);
    DecodeOfEncode(ciphertext);
  }

  lemma PrintedText(iv: seq<Byte>, ciphertext: seq<Byte>)
    ensures Printed(LocalDev, ENVELOPE_VERSION, [iv, ciphertext]) == "local-dev.v1." + (Encode(iv) + ("." + Encode(ciphertext)))
  {
    assert Encoded([iv, ciphertext]) == [Encode(iv), Encode(ciphertext)];
    JoinOfFour("local-dev", "v1", Encode(iv), Encode(ciphertext));
    var front: string := "local-dev" + "." + "v1" + ".";
    assert front == "local-dev.v1.";
  }

  lemma JoinOfFour(a: string, b: string, c: string, d: string)
    ensures Join([a, b] + [c, d], '.') == a + "." + b + "." + (c + ("." + d))
  {
    JoinOneMore([a], b, '.');
    JoinOneMore([a, b], c, '.');
    JoinOneMore([a, b, c], d, '.');
    assert [a] + [b] == [a, b] && [a, b] + [c] == [a, b, c] && [a, b, c] + [d] == [a, b] + [c, d];
    assert Join([a], '.') == a;
  }

  /** The documented sizes of the other scheme. */
  lemma ThresholdEnvelopeIsAccepted(nonce: seq<Byte>, tdh2: seq<Byte>, symmetric: seq<Byte>, version: string)
    requires IsVersion(version)
    ensures EnvelopeComplaint(Printed(Tdh2, version, [nonce, tdh2, symmetric]), Tdh2) == None
            <==> |nonce| >= 12 && |tdh2| >= 16 && |symmetric| >= 16
    ensures Tag(Tdh2) == "tdh2-p256-aesgcm"
  {
    var blobs := [nonce, tdh2, symmetric];
    if |nonce| >= 12 && |tdh2| >= 16 && |symmetric| >= 16 {
      PrintedIsAccepted(Tdh2, version, blobs);
    }
    if EnvelopeComplaint(Printed(Tdh2, version, blobs), Tdh2) == None {
      var version', blobs' := AcceptedIsPrinted(Printed(Tdh2, version, blobs), Tdh2);
      PrintedIsInjective(Tdh2, version, blobs, Tdh2, version', blobs');
      assert Fits(|blobs[0]|, Shape(Tdh2)[0]) && Fits(|blobs[1]|, Shape(Tdh2)[1]) && Fits(|blobs[2]|, Shape(Tdh2)[2]);
    }
  }

  /** A nonce or a ciphertext of the wrong size is complained about by its name. */
  lemma WrongSizesAreNamed(version: string, iv: seq<Byte>, ciphertext: seq<Byte>)
    requires IsVersion(version) && iv != [] && ciphertext != []
    ensures EnvelopeComplaint(Printed(LocalDev, version, [iv, ciphertext]), LocalDev)
         == if |iv| < 12 then Some(TooShort("iv", |iv|)) else if |iv| > 12 then Some(TooLong("iv", |iv|))
            else if |ciphertext| < 16 then Some(TooShort("ciphertext", |ciphertext|)) else None
  {
    var blobs, shape := [iv, ciphertext], Shape(LocalDev);
    PrintedSplits(LocalDev, version, blobs);
    JudgedByItsBlobs(LocalDev, version, blobs);
    SizeComplaint(iv, shape[0]);
    SizeComplaint(ciphertext, shape[1]);
    FirstOfTwo(PartComplaints(Encoded(blobs), shape));
  }

  lemma WrongThresholdSizesAreNamed(version: string, nonce: seq<Byte>, tdh2: seq<Byte>, symmetric: seq<Byte>)
    requires IsVersion(version) && nonce != [] && tdh2 != [] && symmetric != []
    ensures EnvelopeComplaint(Printed(Tdh2, version, [nonce, tdh2, symmetric]), Tdh2)
         == if |nonce| < 12 then Some(TooShort("nonce", |nonce|))
            else if |tdh2| < 16 then Some(TooShort("TDH2 ciphertext", |tdh2|))
            else if |symmetric| < 16 then Some(TooShort("symmetric ciphertext", |symmetric|)) else None
  {
    var blobs, shape := [nonce, tdh2, symmetric], Shape(Tdh2);
    PrintedSplits(Tdh2, version, blobs);
    JudgedByItsBlobs(Tdh2, version, blobs);
    SizeComplaint(nonce, shape[0]);
    SizeComplaint(tdh2, shape[1]);
    SizeComplaint(symmetric, shape[2]);
    FirstOfThree(PartComplaints(Encoded(blobs), shape));
  }

  lemma JudgedByItsBlobs(scheme: Scheme, version: string, blobs: seq<seq<Byte>>)
    requires IsVersion(version) && |blobs| == |Shape(scheme)|
    ensures EnvelopeComplaint(Printed(scheme, version, blobs), scheme) == First(PartComplaints(Encoded(blobs), Shape(scheme)))
  {
    PrintedSplits(scheme, version, blobs);
    assert ([Tag(scheme), version] + Encoded(blobs))[2..] == Encoded(blobs);
  }

  lemma SizeComplaint(blob: seq<Byte>, shape: Part)
    requires blob != []
    ensures PartComplaint(Encode(blob), shape)
         == if |blob| < shape.minBytes then Some(TooShort(shape.what, |blob|))
            else if shape.maxBytes.Some? && |blob| > shape.maxBytes.value then Some(TooLong(shape.what, |blob|)) else None
  {
    DecodedIffEncoded(Encode(blob), |blob|);
  }

  lemma FirstOfTwo(c: seq<Option<Complaint>>)
    requires |c| == 2
    ensures First(c) == if c[0].Some? then c[0] else c[1]
  {
    assert c[1..] == [c[1]] && [c[1]][1..] == [] && First([]) == None;
    assert First([c[1]]) == c[1];
  }

  lemma FirstOfThree(c: seq<Option<Complaint>>)
    requires |c| == 3
    ensures First(c) == if c[0].Some? then c[0] else if c[1].Some? then c[1] else c[2]
  {
    FirstOfTwo(c[1..]);
  }

  function Decimal(n: nat): string {
    var digit := ('0' as int + n % 10) as char;
    if n < 10 then [digit] else Decimal(n / 10) + [digit]
  }

  /** Any number at all is a version. */
  lemma {:induction false} EveryNumberIsAVersion(n: nat)
    ensures IsNumeral(Decimal(n)) && Decimal(n) != [] && IsVersion("v" + Decimal(n))
  {
    if n >= 10 {
      EveryNumberIsAVersion(n / 10);
    }
    assert ("v" + Decimal(n))[1..] == Decimal(n);
  }

  /** Every accepted `local-dev` string that the browser can read is the envelope of the pair it
      reads there, which is one of the browser's sizes; and the browser reads an accepted string
      exactly when its version is `v1`, which the backend does not check. */
  lemma AcceptedIsReadIffVersionOne(value: string)
    requires EnvelopeComplaint(value, LocalDev) == None
    ensures Parse(value).Ok? <==> Split(value, '.')[1] == ENVELOPE_VERSION
    ensures Parse(value).Ok? ==>
              var (iv, ciphertext) := Parse(value).value;
              && |iv| == NONCE_BYTES && |ciphertext| >= TAG_BYTES
              && value == Printed(LocalDev, ENVELOPE_VERSION, [iv, ciphertext])
  {
    var version, blobs := AcceptedIsPrinted(value, LocalDev);
    PrintedSplits(LocalDev, version, blobs);
    assert Fits(|blobs[0]|, Shape(LocalDev)[0]) && Fits(|blobs[1]|, Shape(LocalDev)[1]);
    assert blobs == [blobs[0], blobs[1]];
    DecodeOfEncode(blobs[0]);
    DecodeOfEncode(blobs[1]);
  }

  /** An accepted string that the browser refuses: the version may be any number. */
  lemma VersionTwoIsAcceptedNotRead(iv: seq<Byte>, ciphertext: seq<Byte>)
    requires |iv| == NONCE_BYTES && |ciphertext| >= TAG_BYTES
    ensures var value := Printed(LocalDev, "v2", [iv, ciphertext]);
            EnvelopeComplaint(value, LocalDev) == None && Parse(value) == Err(Unrecognised)
  {
    PrintedIsAccepted(LocalDev, "v2", [iv, ciphertext]);
    PrintedSplits(LocalDev, "v2", [iv, ciphertext]);
  }
}
