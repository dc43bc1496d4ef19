/** The binary formats as functions: what a value is written as, and what is read back from the front of a buffer.
    pkg/utils/encoding/encoding.go and the ToBytes and FromBytes of pkg/message. */
module Codec {
  import opened Bytes
  import Bags

  /** Reading either takes a value off the front or runs out of bytes. */
  datatype Decoded<+T> = Ok(value: T, rest: seq<byte>) | Short

  type int64 = x: int | FitsSigned(8, x)
  type int8 = x: int | FitsSigned(1, x)
  type uint64 = x: nat | x < Range(8)

  function DecodeUint(width: nat, b: seq<byte>): Decoded<nat> {
    if |b| < width then Short else Ok(FromBytes(b[..width]), b[width..])
  }

  function EncodeInt(width: nat, n: int): (b: seq<byte>)
    requires FitsSigned(width, n)
    ensures |b| == width
  {
    ToBytes(width, Unsigned(width, n))
  }

  function DecodeInt(width: nat, b: seq<byte>): (d: Decoded<int>)
    requires width > 0
    ensures d.Ok? ==> FitsSigned(width, d.value)
  {
    if |b| < width then Short
    else
      ToFromBytes(b[..width]);
      Ok(Signed(width, FromBytes(b[..width])), b[width..])
  }

  lemma UintRoundTrip(width: nat, n: nat, rest: seq<byte>)
    ensures n < Range(width) ==> DecodeUint(width, ToBytes(width, n) + rest) == Ok(n, rest)
  {
    assert (ToBytes(width, n) + rest)[..width] == ToBytes(width, n);
    if n < Range(width) {
      FromToBytes(width, n);
    }
  }

  /** Two's complement numbers come back with their sign, and what follows is left alone. */
  lemma IntRoundTrip(width: nat, n: int, rest: seq<byte>)
    requires FitsSigned(width, n)
    ensures DecodeInt(width, EncodeInt(width, n) + rest) == Ok(n, rest)
  {
    assert (EncodeInt(width, n) + rest)[..width] == EncodeInt(width, n);
    FromToBytes(width, Unsigned(width, n));
    SignedUnsigned(width, n);
  }

  function EncodeBool(x: bool): seq<byte> {
    ToBytes(1, if x then 1 else 0)
  }

  function DecodeBool(b: seq<byte>): Decoded<bool> {
    match DecodeUint(1, b)
    case Ok(n, rest) => Ok(n == 1, rest)
    case Short => Short
  }

  lemma BoolRoundTrip(x: bool, rest: seq<byte>)
    ensures DecodeBool(EncodeBool(x) + rest) == Ok(x, rest)
  {
    UintRoundTrip(1, if x then 1 else 0, rest);
    assert Range(1) == 256;
  }

  /** The length is converted to 32 bits, whatever it is. */
  function EncodeLength(n: nat): (b: seq<byte>)
    ensures |b| == 4
  {
    ToBytes(4, n % WORD)
  }

  lemma LengthRoundTrip(n: nat, rest: seq<byte>)
    ensures DecodeUint(4, EncodeLength(n) + rest) == Ok(n % WORD, rest)
  {
    WordRange();
    UintRoundTrip(4, n % WORD, rest);
  }

  function EncodeString(s: seq<byte>): seq<byte> {
    EncodeLength(|s|) + s
  }

  function DecodeString(b: seq<byte>): Decoded<seq<byte>> {
    match DecodeUint(4, b)
    case Ok(size, rest) => if |rest| < size then Short else Ok(rest[..size], rest[size..])
    case Short => Short
  }

  /** A string comes back, with what follows it, exactly if its length fits 32 bits. */
  lemma StringRoundTripIff(s: seq<byte>, rest: seq<byte>)
    ensures DecodeString(EncodeString(s) + rest) == Ok(s, rest) <==> |s| < WORD
  {
    assert EncodeString(s) + rest == EncodeLength(|s|) + (s + rest);
    LengthRoundTrip(|s|, s + rest);
    if |s| < WORD {
      assert (s + rest)[..|s|] == s;
    }
  }

  lemma StringInverse(s: seq<byte>)
    requires Fits(s)
    ensures Inverse(EncodeString, DecodeString, s)
  {
    forall rest: seq<byte>
      ensures DecodeString(EncodeString(s) + rest) == Ok(s, rest)
    {
      StringRoundTripIff(s, rest);
    }
  }

  // Lists of anything.

  function EncodeAll<T>(enc: T -> seq<byte>, s: seq<T>): seq<byte> {
    if s == [] then [] else EncodeAll(enc, s[..|s| - 1]) + enc(s[|s| - 1])
  }

  function DecodeTimes<T>(dec: seq<byte> -> Decoded<T>, n: nat, b: seq<byte>): (d: Decoded<seq<T>>)
    ensures d.Ok? ==> |d.value| == n
  {
    if n == 0 then Ok([], b)
    else
      match DecodeTimes(dec, n - 1, b)
      case Short => Short
      case Ok(vs, rest) =>
        match dec(rest)
        case Short => Short
        case Ok(v, rest') => Ok(vs + [v], rest')
  }

  function EncodeList<T>(enc: T -> seq<byte>, s: seq<T>): seq<byte> {
    EncodeLength(|s|) + EncodeAll(enc, s)
  }

  function DecodeList<T>(dec: seq<byte> -> Decoded<T>, b: seq<byte>): Decoded<seq<T>> {
    match DecodeUint(4, b)
    case Ok(size, rest) => DecodeTimes(dec, size, rest)
    case Short => Short
  }

  /** dec takes back x, and only x, from a buffer that begins with it. */
  ghost predicate Inverse<T(!new)>(enc: T -> seq<byte>, dec: seq<byte> -> Decoded<T>, x: T) {
    forall rest {:trigger enc(x) + rest} :: dec(enc(x) + rest) == Ok(x, rest)
  }

  ghost predicate AllInverse<T(!new)>(enc: T -> seq<byte>, dec: seq<byte> -> Decoded<T>, s: seq<T>) {
    forall i :: 0 <= i < |s| ==> Inverse(enc, dec, s[i])
  }

  lemma {:induction false} TimesRoundTrip<T(!new)>(enc: T -> seq<byte>, dec: seq<byte> -> Decoded<T>, s: seq<T>,
                                                   rest: seq<byte>)
    requires AllInverse(enc, dec, s)
    ensures DecodeTimes(dec, |s|, EncodeAll(enc, s) + rest) == Ok(s, rest)
  {
    if s == [] {
      assert EncodeAll(enc, s) + rest == rest;
    } else {
      var init, last := s[..|s| - 1], s[|s| - 1];
      TimesRoundTrip(enc, dec, init, enc(last) + rest);
      assert EncodeAll(enc, s) + rest == EncodeAll(enc, init) + (enc(last) + rest);
      assert Inverse(enc, dec, s[|s| - 1]);
      assert s == init + [last];
    }
  }

  /** A list comes back exactly if its length fits 32 bits, given that its elements do. */
  lemma ListRoundTripIff<T(!new)>(enc: T -> seq<byte>, dec: seq<byte> -> Decoded<T>, s: seq<T>, rest: seq<byte>)
    requires AllInverse(enc, dec, s)
    ensures DecodeList(dec, EncodeList(enc, s) + rest) == Ok(s, rest) <==> |s| < WORD
  {
    assert EncodeList(enc, s) + rest == EncodeLength(|s|) + (EncodeAll(enc, s) + rest);
    LengthRoundTrip(|s|, EncodeAll(enc, s) + rest);
    if |s| < WORD {
      TimesRoundTrip(enc, dec, s, rest);
    }
  }

  // The messages.

  datatype Review = Review(gameId: int64, gameName: seq<byte>, text: seq<byte>, score: int8)

  function EncodeReview(r: Review): seq<byte> {
    EncodeInt(8, r.gameId) + EncodeString(r.gameName) + EncodeString(r.text) + EncodeInt(1, r.score)
  }

  function DecodeReview(b: seq<byte>): Decoded<Review> {
    match DecodeInt(8, b)
    case Short => Short
    case Ok(id, b1) =>
      match DecodeString(b1)
      case Short => Short
      case Ok(name, b2) =>
        match DecodeString(b2)
        case Short => Short
        case Ok(text, b3) =>
          match DecodeInt(1, b3)
          case Short => Short
          case Ok(score, b4) => Ok(Review(id, name, text, score), b4)
  }

  predicate Fits(s: seq<byte>) {
    |s| < WORD
  }

  lemma ReviewRoundTrip(r: Review)
    requires Fits(r.gameName) && Fits(r.text)
    ensures Inverse(EncodeReview, DecodeReview, r)
  {
    forall rest: seq<byte>
      ensures DecodeReview(EncodeReview(r) + rest) == Ok(r, rest)
    {
      var b3 := EncodeInt(1, r.score) + rest;
      var b2 := EncodeString(r.text) + b3;
      var b1 := EncodeString(r.gameName) + b2;
      assert EncodeReview(r) + rest == EncodeInt(8, r.gameId) + b1;
      IntRoundTrip(8, r.gameId, b1);
      StringRoundTripIff(r.gameName, b2);
      StringRoundTripIff(r.text, b3);
      IntRoundTrip(1, r.score, rest);
    }
  }

  /** Any list of reviews whose strings and number fit 32 bits comes back from its bytes, leaving what follows. */
  lemma ReviewsRoundTrip(m: seq<Review>, rest: seq<byte>)
    requires forall r :: r in m ==> Fits(r.gameName) && Fits(r.text)
    ensures DecodeList(DecodeReview, EncodeList(EncodeReview, m) + rest) == Ok(m, rest) <==> |m| < WORD
  {
    forall i | 0 <= i < |m|
      ensures Inverse(EncodeReview, DecodeReview, m[i])
    {
      ReviewRoundTrip(m[i]);
    }
    ListRoundTripIff(EncodeReview, DecodeReview, m, rest);
  }

  datatype Scored = Scored(gameId: int64, votes: uint64, gameName: seq<byte>)

  function EncodeScored(r: Scored): seq<byte> {
    EncodeInt(8, r.gameId) + ToBytes(8, r.votes) + EncodeString(r.gameName)
  }

  function DecodeScored(b: seq<byte>): Decoded<Scored> {
    match DecodeInt(8, b)
    case Short => Short
    case Ok(id, b1) =>
      match DecodeUint(8, b1)
      case Short => Short
      case Ok(votes, b2) =>
        ToFromBytes(b1[..8]);
        match DecodeString(b2)
        case Short => Short
        case Ok(name, b3) => Ok(Scored(id, votes, name), b3)
  }

  lemma ScoredRoundTrip(r: Scored)
    requires Fits(r.gameName)
    ensures Inverse(EncodeScored, DecodeScored, r)
  {
    forall rest: seq<byte>
      ensures DecodeScored(EncodeScored(r) + rest) == Ok(r, rest)
    {
      var b2 := EncodeString(r.gameName) + rest;
      var b1 := ToBytes(8, r.votes) + b2;
      assert EncodeScored(r) + rest == EncodeInt(8, r.gameId) + b1;
      IntRoundTrip(8, r.gameId, b1);
      UintRoundTrip(8, r.votes, b2);
      StringRoundTripIff(r.gameName, rest);
    }
  }

  lemma ScoredReviewsRoundTrip(m: seq<Scored>, rest: seq<byte>)
    requires forall r :: r in m ==> Fits(r.gameName)
    ensures DecodeList(DecodeScored, EncodeList(EncodeScored, m) + rest) == Ok(m, rest) <==> |m| < WORD
  {
    forall i | 0 <= i < |m|
      ensures Inverse(EncodeScored, DecodeScored, m[i])
    {
      ScoredRoundTrip(m[i]);
    }
    ListRoundTripIff(EncodeScored, DecodeScored, m, rest);
  }

  datatype Named = Named(gameId: int64, gameName: seq<byte>)

  function EncodeNamed(g: Named): seq<byte> {
    EncodeInt(8, g.gameId) + EncodeString(g.gameName)
  }

  function DecodeNamed(b: seq<byte>): Decoded<Named> {
    match DecodeInt(8, b)
    case Short => Short
    case Ok(id, b1) =>
      match DecodeString(b1)
      case Short => Short
      case Ok(name, b2) => Ok(Named(id, name), b2)
  }

  lemma NamedRoundTrip(g: Named)
    requires Fits(g.gameName)
    ensures Inverse(EncodeNamed, DecodeNamed, g)
  {
    forall rest: seq<byte>
      ensures DecodeNamed(EncodeNamed(g) + rest) == Ok(g, rest)
    {
      assert EncodeNamed(g) + rest == EncodeInt(8, g.gameId) + (EncodeString(g.gameName) + rest);
      IntRoundTrip(8, g.gameId, EncodeString(g.gameName) + rest);
      StringRoundTripIff(g.gameName, rest);
    }
  }

  lemma GameNamesRoundTrip(m: seq<Named>, rest: seq<byte>)
    requires forall g :: g in m ==> Fits(g.gameName)
    ensures DecodeList(DecodeNamed, EncodeList(EncodeNamed, m) + rest) == Ok(m, rest) <==> |m| < WORD
  {
    forall i | 0 <= i < |m|
      ensures Inverse(EncodeNamed, DecodeNamed, m[i])
    {
      NamedRoundTrip(m[i]);
    }
    ListRoundTripIff(EncodeNamed, DecodeNamed, m, rest);
  }

  // Texts by game.

  type TextReviews = map<int64, seq<seq<byte>>>

  datatype Entry = Entry(id: int64, texts: seq<seq<byte>>)

  function EncodeEntry(e: Entry): seq<byte> {
    EncodeInt(8, e.id) + EncodeList(EncodeString, e.texts)
  }

  function DecodeEntry(b: seq<byte>): Decoded<Entry> {
    match DecodeInt(8, b)
    case Short => Short
    case Ok(id, b1) =>
      match DecodeList(DecodeString, b1)
      case Short => Short
      case Ok(texts, b2) => Ok(Entry(id, texts), b2)
  }

  /** The map's entries in the given order of its keys. */
  function Entries(m: TextReviews, order: seq<int64>): (es: seq<Entry>)
    requires forall id :: id in order ==> id in m
    ensures |es| == |order| && forall i :: 0 <= i < |es| ==> es[i] == Entry(order[i], m[order[i]])
  {
    seq(|order|, i requires 0 <= i < |order| => Entry(order[i], m[order[i]]))
  }

  /** What decoding builds up, entry by entry. */
  function MapOf(es: seq<Entry>): TextReviews {
    if es == [] then map[] else MapOf(es[..|es| - 1])[es[|es| - 1].id := es[|es| - 1].texts]
  }

  predicate EntryFits(texts: seq<seq<byte>>) {
    |texts| < WORD && forall t :: t in texts ==> Fits(t)
  }

  lemma EntryRoundTrip(e: Entry)
    requires EntryFits(e.texts)
    ensures Inverse(EncodeEntry, DecodeEntry, e)
  {
    forall i | 0 <= i < |e.texts|
      ensures Inverse(EncodeString, DecodeString, e.texts[i])
    {
      assert e.texts[i] in e.texts;
      StringInverse(e.texts[i]);
    }
    forall rest: seq<byte>
      ensures DecodeEntry(EncodeEntry(e) + rest) == Ok(e, rest)
    {
      var b1 := EncodeList(EncodeString, e.texts) + rest;
      assert EncodeEntry(e) + rest == EncodeInt(8, e.id) + b1;
      IntRoundTrip(8, e.id, b1);
      ListRoundTripIff(EncodeString, DecodeString, e.texts, rest);
    }
  }

  lemma {:induction false} MapOfEntries(m: TextReviews, order: seq<int64>)
    requires forall id :: id in order ==> id in m
    ensures forall id :: id in MapOf(Entries(m, order)) <==> id in order
    ensures forall id :: id in order ==> MapOf(Entries(m, order))[id] == m[id]
  {
    if order != [] {
      var init, last := order[..|order| - 1], order[|order| - 1];
      assert order == init + [last];
      MapOfEntries(m, init);
      assert Entries(m, order)[..|order| - 1] == Entries(m, init);
    }
  }

  lemma {:induction false} KeyCount(m: TextReviews, order: seq<int64>)
    requires Bags.KeyOrder(m, order)
    ensures |order| == |m|
    decreases |order|
  {
    if order == [] {
      assert m.Keys == {};
    } else {
      var init, last := order[..|order| - 1], order[|order| - 1];
      assert order == init + [last];
      var m' := m - {last};
      assert m'.Keys == m.Keys - {last};
      KeyCount(m', init);
    }
  }

  /** In whatever order Go walks the map, the map comes back from its bytes. */
  lemma TextReviewsRoundTrip(m: TextReviews, order: seq<int64>, rest: seq<byte>)
    requires Bags.KeyOrder(m, order) && |m| < WORD && forall id :: id in m ==> EntryFits(m[id])
    ensures var d := DecodeList(DecodeEntry, EncodeList(EncodeEntry, Entries(m, order)) + rest);
            d.Ok? && MapOf(d.value) == m && d.rest == rest
  {
    var es := Entries(m, order);
    forall i | 0 <= i < |es|
      ensures Inverse(EncodeEntry, DecodeEntry, es[i])
    {
      assert order[i] in order;
      EntryRoundTrip(es[i]);
    }
    KeyCount(m, order);
    ListRoundTripIff(EncodeEntry, DecodeEntry, es, rest);
    MapOfEntries(m, order);
  }

  // The EOF token.

  function EncodeEof(visited: seq<byte>): seq<byte> {
    ToBytes(1, |visited| % 256) + visited
  }

  function DecodeEof(b: seq<byte>): Decoded<seq<byte>> {
    match DecodeUint(1, b)
    case Short => Short
    case Ok(size, rest) => if |rest| < size then Short else Ok(rest[..size], rest[size..])
  }

  /** The list of visited workers comes back exactly if there are fewer than 256 of them. */
  lemma EofRoundTripIff(visited: seq<byte>, rest: seq<byte>)
    ensures DecodeEof(EncodeEof(visited) + rest) == Ok(visited, rest) <==> |visited| < 256
  {
    assert Range(1) == 256;
    assert EncodeEof(visited) + rest == ToBytes(1, |visited| % 256) + (visited + rest);
    UintRoundTrip(1, |visited| % 256, visited + rest);
    if |visited| < 256 {
      assert (visited + rest)[..|visited|] == visited;
    }
  }
}
