/** What the binary formats look like, and that no message is taken for another one cut short. */
module Formats {
  import opened Bytes
  import opened Codec

  // Byte by byte.

  lemma NumbersAreBigEndian()
    ensures EncodeInt(8, 258) == [0, 0, 0, 0, 0, 0, 1, 2] && EncodeInt(1, -1) == [255]
    ensures EncodeBool(true) == [1] && EncodeBool(false) == [0] && DecodeBool([2]) == Codec.Ok(false, [])
    ensures EncodeLength(3) == [0, 0, 0, 3]
  {
    WordRange();
    assert ToBytes(1, 255) == [255] && ToBytes(1, 1) == [1] && ToBytes(1, 0) == [0];
    assert ToBytes(2, 258) == [1, 2];
    assert ToBytes(4, 258) == [0, 0, 1, 2] && ToBytes(6, 258) == [0, 0, 0, 0, 1, 2];
    assert ToBytes(2, 3) == [0, 3];
    assert [2 as byte][..1] == [2] && [2 as byte][1..] == [] && [2 as byte][..0] == [];
  }

  /** A string has its length in front. */
  lemma StringBytes(s: seq<byte>)
    requires |s| == 3
    ensures EncodeString(s) == [0, 0, 0, 3] + s
  {
    NumbersAreBigEndian();
  }

  const ID: seq<byte> := [0, 0, 0, 0, 0, 0, 1, 2]
  const THREE: seq<byte> := [0, 0, 0, 3]

  /** The fields of the messages, in order. */
  lemma FieldOrder(name: seq<byte>, text: seq<byte>)
    requires |name| == 3 && |text| == 3
    ensures EncodeReview(Review(258, name, text, -1)) == ID + THREE + name + THREE + text + [255]
    ensures EncodeScored(Scored(258, 258, name)) == ID + ID + THREE + name
    ensures EncodeNamed(Named(258, name)) == ID + THREE + name
  {
    NumbersAreBigEndian();
    StringBytes(name);
    StringBytes(text);
    assert ToBytes(8, 258) == EncodeInt(8, 258);
    Flat(ID, THREE, name);
    Flat(ID + THREE + name, THREE, text);
    Flat(ID + ID, THREE, name);
  }

  lemma Flat(a: seq<byte>, b: seq<byte>, c: seq<byte>)
    ensures a + (b + c) == a + b + c
  {
  }

  /** A game's texts have their number in front. */
  lemma ListOrder(a: seq<byte>, b: seq<byte>)
    requires |a| == 3 && |b| == 3
    ensures EncodeEntry(Entry(258, [a, b, a])) == ID + (THREE + ((THREE + a) + (THREE + b) + (THREE + a)))
  {
    ThreeTexts(a, b);
    NumbersAreBigEndian();
    StringBytes(a);
    StringBytes(b);
  }

  /** So have the workers on an EOF token, in one byte. */
  lemma EofOrder()
    ensures EncodeEof([7, 0, 9]) == [3, 7, 0, 9]
  {
    assert ToBytes(1, 3) == [3];
  }

  lemma ThreeTexts(a: seq<byte>, b: seq<byte>)
    ensures EncodeList(EncodeString, [a, b, a]) ==
            EncodeLength(3) + (EncodeString(a) + EncodeString(b) + EncodeString(a))
  {
    assert [a, b, a][..2] == [a, b] && [a, b][..1] == [a] && [a][..0] == [];
    assert EncodeAll(EncodeString, [a]) == EncodeString(a);
    assert EncodeAll(EncodeString, [a, b]) == EncodeString(a) + EncodeString(b);
  }

  // Messages cut short.

  /** No proper beginning of x's bytes is read as anything. */
  ghost predicate RefusedShort<T(!new)>(enc: T -> seq<byte>, dec: seq<byte> -> Decoded<T>, x: T) {
    forall b {:trigger dec(b)} :: b < enc(x) ==> dec(b).Short?
  }

  /** A proper beginning of two pieces ends in the first, or has it and ends in the second. */
  lemma EndsIn(a: seq<byte>, b: seq<byte>, p: seq<byte>)
    requires p < a + b
    ensures |p| < |a| ==> p < a
    ensures |p| >= |a| ==> p == a + p[|a|..] && p[|a|..] < b
  {
    assert (a + b)[..|p|] == p;
    if |p| < |a| {
      assert a[..|p|] == p;
    } else {
      assert (a + b)[|a|..|p|] == p[|a|..] && b[..|p| - |a|] == p[|a|..];
    }
  }

  lemma StringRefusedShort(s: seq<byte>)
    requires Fits(s)
    ensures RefusedShort(EncodeString, DecodeString, s)
  {
    forall p: seq<byte> | p < EncodeString(s)
      ensures DecodeString(p).Short?
    {
      EndsIn(EncodeLength(|s|), s, p);
      if |p| >= 4 {
        LengthRoundTrip(|s|, p[4..]);
      }
    }
  }

  /** Behind a number, what is short stays short. */
  lemma BehindInt(width: nat, n: int, rest: seq<byte>, p: seq<byte>)
    requires FitsSigned(width, n) && p < EncodeInt(width, n) + rest
    ensures DecodeInt(width, p).Short? ||
            (|p| >= width && DecodeInt(width, p) == Ok(n, p[width..]) && p[width..] < rest)
  {
    EndsIn(EncodeInt(width, n), rest, p);
    if |p| >= width {
      IntRoundTrip(width, n, p[width..]);
    }
  }

  /** And so it does behind a string. */
  lemma BehindString(s: seq<byte>, rest: seq<byte>, p: seq<byte>)
    requires Fits(s) && p < EncodeString(s) + rest
    ensures DecodeString(p).Short? ||
            (DecodeString(p).Ok? && DecodeString(p).value == s && DecodeString(p).rest < rest)
  {
    EndsIn(EncodeString(s), rest, p);
    if |p| >= |EncodeString(s)| {
      StringRoundTripIff(s, p[|EncodeString(s)|..]);
    } else {
      StringRefusedShort(s);
    }
  }

  lemma ReviewRefusedShort(r: Review)
    requires Fits(r.gameName) && Fits(r.text)
    ensures RefusedShort(EncodeReview, DecodeReview, r)
  {
    forall p: seq<byte> | p < EncodeReview(r)
      ensures DecodeReview(p).Short?
    {
      var b3 := EncodeInt(1, r.score);
      var b2 := EncodeString(r.text) + b3;
      var b1 := EncodeString(r.gameName) + b2;
      assert EncodeReview(r) == EncodeInt(8, r.gameId) + b1;
      BehindInt(8, r.gameId, b1, p);
      if DecodeInt(8, p).Ok? {
        BehindString(r.gameName, b2, p[8..]);
        if DecodeString(p[8..]).Ok? {
          BehindString(r.text, b3, DecodeString(p[8..]).rest);
        }
      }
    }
  }

  lemma ScoredRefusedShort(r: Scored)
    requires Fits(r.gameName)
    ensures RefusedShort(EncodeScored, DecodeScored, r)
  {
    forall p: seq<byte> | p < EncodeScored(r)
      ensures DecodeScored(p).Short?
    {
      var b2 := EncodeString(r.gameName);
      assert EncodeScored(r) == EncodeInt(8, r.gameId) + (ToBytes(8, r.votes) + b2);
      BehindInt(8, r.gameId, ToBytes(8, r.votes) + b2, p);
      if DecodeInt(8, p).Ok? {
        var p' := p[8..];
        EndsIn(ToBytes(8, r.votes), b2, p');
        if |p'| >= 8 {
          UintRoundTrip(8, r.votes, p'[8..]);
          StringRefusedShort(r.gameName);
        }
      }
    }
  }

  lemma NamedRefusedShort(g: Named)
    requires Fits(g.gameName)
    ensures RefusedShort(EncodeNamed, DecodeNamed, g)
  {
    forall p: seq<byte> | p < EncodeNamed(g)
      ensures DecodeNamed(p).Short?
    {
      BehindInt(8, g.gameId, EncodeString(g.gameName), p);
      StringRefusedShort(g.gameName);
    }
  }

  ghost predicate AllRefusedShort<T(!new)>(enc: T -> seq<byte>, dec: seq<byte> -> Decoded<T>, s: seq<T>) {
    forall i :: 0 <= i < |s| ==> RefusedShort(enc, dec, s[i])
  }

  lemma {:induction false} TimesRefusedShort<T(!new)>(enc: T -> seq<byte>, dec: seq<byte> -> Decoded<T>, s: seq<T>,
                                                      p: seq<byte>)
    requires AllInverse(enc, dec, s) && AllRefusedShort(enc, dec, s) && p < EncodeAll(enc, s)
    ensures DecodeTimes(dec, |s|, p).Short?
  {
    var init, last := s[..|s| - 1], s[|s| - 1];
    EndsIn(EncodeAll(enc, init), enc(last), p);
    if |p| < |EncodeAll(enc, init)| {
      TimesRefusedShort(enc, dec, init, p);
    } else {
      TimesRoundTrip(enc, dec, init, p[|EncodeAll(enc, init)|..]);
      assert RefusedShort(enc, dec, s[|s| - 1]);
    }
  }

  /** A list whose elements are refused when cut short is refused when cut short. */
  lemma ListRefusedShort<T(!new)>(enc: T -> seq<byte>, dec: seq<byte> -> Decoded<T>, s: seq<T>)
    requires AllInverse(enc, dec, s) && AllRefusedShort(enc, dec, s) && |s| < WORD
    ensures forall p :: p < EncodeList(enc, s) ==> DecodeList(dec, p).Short?
  {
    forall p | p < EncodeList(enc, s)
      ensures DecodeList(dec, p).Short?
    {
      EndsIn(EncodeLength(|s|), EncodeAll(enc, s), p);
      if |p| >= 4 {
        LengthRoundTrip(|s|, p[4..]);
        TimesRefusedShort(enc, dec, s, p[4..]);
      }
    }
  }

  lemma EntryRefusedShort(e: Entry)
    requires EntryFits(e.texts)
    ensures RefusedShort(EncodeEntry, DecodeEntry, e)
  {
    forall i | 0 <= i < |e.texts|
      ensures Inverse(EncodeString, DecodeString, e.texts[i]) && RefusedShort(EncodeString, DecodeString, e.texts[i])
    {
      assert e.texts[i] in e.texts;
      StringRefusedShort(e.texts[i]);
      StringInverse(e.texts[i]);
    }
    ListRefusedShort(EncodeString, DecodeString, e.texts);
    forall p: seq<byte> | p < EncodeEntry(e)
      ensures DecodeEntry(p).Short?
    {
      BehindInt(8, e.id, EncodeList(EncodeString, e.texts), p);
    }
  }

  /** However a message is cut short, it is refused as a whole: reviews, scored reviews, names and texts alike. */
  lemma CutMessageIsRefused(reviews: seq<Review>, scored: seq<Scored>, names: seq<Named>, texts: seq<Entry>,
                            p: seq<byte>)
    requires |reviews| < WORD && |scored| < WORD && |names| < WORD && |texts| < WORD
    requires forall i :: 0 <= i < |reviews| ==> Fits(reviews[i].gameName) && Fits(reviews[i].text)
    requires forall i :: 0 <= i < |scored| ==> Fits(scored[i].gameName)
    requires forall i :: 0 <= i < |names| ==> Fits(names[i].gameName)
    requires forall i :: 0 <= i < |texts| ==> EntryFits(texts[i].texts)
    ensures p < EncodeList(EncodeReview, reviews) ==> DecodeList(DecodeReview, p).Short?
    ensures p < EncodeList(EncodeScored, scored) ==> DecodeList(DecodeScored, p).Short?
    ensures p < EncodeList(EncodeNamed, names) ==> DecodeList(DecodeNamed, p).Short?
    ensures p < EncodeList(EncodeEntry, texts) ==> DecodeList(DecodeEntry, p).Short?
  {
    forall i | 0 <= i < |reviews|
      ensures Inverse(EncodeReview, DecodeReview, reviews[i]) && RefusedShort(EncodeReview, DecodeReview, reviews[i])
    {
      ReviewRoundTrip(reviews[i]);
      ReviewRefusedShort(reviews[i]);
    }
    forall i | 0 <= i < |scored|
      ensures Inverse(EncodeScored, DecodeScored, scored[i]) && RefusedShort(EncodeScored, DecodeScored, scored[i])
    {
      ScoredRoundTrip(scored[i]);
      ScoredRefusedShort(scored[i]);
    }
    forall i | 0 <= i < |names|
      ensures Inverse(EncodeNamed, DecodeNamed, names[i]) && RefusedShort(EncodeNamed, DecodeNamed, names[i])
    {
      NamedRoundTrip(names[i]);
      NamedRefusedShort(names[i]);
    }
    forall i | 0 <= i < |texts|
      ensures Inverse(EncodeEntry, DecodeEntry, texts[i]) && RefusedShort(EncodeEntry, DecodeEntry, texts[i])
    {
      EntryRoundTrip(texts[i]);
      EntryRefusedShort(texts[i]);
    }
    ListRefusedShort(EncodeReview, DecodeReview, reviews);
    ListRefusedShort(EncodeScored, DecodeScored, scored);
    ListRefusedShort(EncodeNamed, DecodeNamed, names);
    ListRefusedShort(EncodeEntry, DecodeEntry, texts);
  }

  /** An EOF token cut short is refused, too. */
  lemma CutEofIsRefused(visited: seq<byte>, p: seq<byte>)
    requires |visited| < 256 && p < EncodeEof(visited)
    ensures DecodeEof(p).Short?
  {
    EndsIn(ToBytes(1, |visited|), visited, p);
    if |p| >= 1 {
      assert Range(1) == 256;
      UintRoundTrip(1, |visited|, p[1..]);
    }
  }
}
