/** The codecs as the repository writes them: loops over a shared buffer that is filled and drained. */
module BufferCodec {
  import Bags
  import opened Bytes
  import opened Codec
  import opened Protocol

  /** What reading leaves behind: the value and the unread bytes, or nothing at all. */
  ghost predicate Read<T>(r: Option<T>, unread: seq<byte>, d: Decoded<T>) {
    match d
    case Ok(v, rest) => r == Some(v) && unread == rest
    case Short => r == None && unread == []
  }

  class Buffer {
    var unread: seq<byte>

    constructor (b: seq<byte>)
      ensures unread == b
    {
      unread := b;
    }

    method Write(b: seq<byte>)
      modifies this
      ensures unread == old(unread) + b
    {
      unread := unread + b;
    }

    method EncodeLengthOf(n: nat)
      modifies this
      ensures unread == old(unread) + EncodeLength(n)
    {
      Write(ToBytes(4, n % WORD));
    }

    method EncodeInt(width: nat, n: int)
      requires FitsSigned(width, n)
      modifies this
      ensures unread == old(unread) + Codec.EncodeInt(width, n)
    {
      Write(ToBytes(width, Unsigned(width, n)));
    }

    method DecodeUint(width: nat) returns (r: Option<nat>)
      modifies this
      ensures Read(r, unread, Codec.DecodeUint(width, old(unread)))
    {
      if |unread| < width {
        unread := [];
        return None;
      }
      r := Some(FromBytes(unread[..width]));
      unread := unread[width..];
    }

    method DecodeInt(width: nat) returns (r: Option<int>)
      requires width > 0
      modifies this
      ensures Read(r, unread, Codec.DecodeInt(width, old(unread)))
    {
      var u := DecodeUint(width);
      return if u.Some? then Some(Signed(width, u.value)) else None;
    }

    /** The string goes out in as many pieces as the writer takes it in. */
    method EncodeString(data: seq<byte>)
      modifies this
      ensures unread == old(unread) + Codec.EncodeString(data)
    {
      EncodeLengthOf(|data|);
      var i := 0;
      while i < |data|
        invariant 0 <= i <= |data|
        invariant unread == old(unread) + EncodeLength(|data|) + data[..i]
      {
        var n: nat :| 0 < n <= |data| - i;
        assert data[..i + n] == data[..i] + data[i..i + n];
        Write(data[i..i + n]);
        i := i + n;
      }
      assert data[..i] == data;
      assert old(unread) + EncodeLength(|data|) + data == old(unread) + Codec.EncodeString(data);
    }

    /** Up to |aux| bytes, always put at the front of aux; an empty buffer is an error. */
    method ReadInto(aux: seq<byte>) returns (filled: seq<byte>, n: nat, err: bool)
      modifies this
      ensures err <==> old(unread) == [] && aux != []
      ensures n == (if |aux| < |old(unread)| then |aux| else |old(unread)|)
      ensures filled == old(unread)[..n] + aux[n..] && unread == old(unread)[n..]
    {
      n := if |aux| < |unread| then |aux| else |unread|;
      err := unread == [] && aux != [];
      filled := unread[..n] + aux[n..];
      unread := unread[n..];
    }

    /** Reading goes on until the size is reached. It gets there in one turn or, the buffer being empty by then, fails
        in the next. */
    method DecodeString() returns (r: Option<seq<byte>>)
      modifies this
      ensures Read(r, unread, Codec.DecodeString(old(unread)))
    {
      var size := DecodeUint(4);
      if size.None? {
        return None;
      }
      ghost var rest := unread;
      var aux := seq(size.value, _ => 0);
      var i := 0;
      while i < size.value
        invariant 0 <= i <= size.value && |aux| == size.value
        invariant i == 0 ==> unread == rest
        invariant 0 < i < size.value ==> unread == [] && |rest| < size.value
        invariant 0 < i == size.value ==>
                    size.value <= |rest| && aux == rest[..size.value] && unread == rest[size.value..]
      {
        var n, err;
        aux, n, err := ReadInto(aux);
        if err {
          return None;
        }
        i := i + n;
      }
      r := Some(aux);
      assert size.value == 0 ==> aux == rest[..0] && rest[0..] == rest;
    }
  }

  lemma Behind(a: seq<byte>, b: seq<byte>, c: seq<byte>)
    ensures (a + b) + c == a + (b + c)
  {
  }

  method ReviewToBuf(buf: Buffer, rev: Review)
    modifies buf
    ensures buf.unread == old(buf.unread) + EncodeReview(rev)
  {
    ghost var before := buf.unread;
    ghost var id, name := Codec.EncodeInt(8, rev.gameId), Codec.EncodeString(rev.gameName);
    buf.EncodeInt(8, rev.gameId);
    buf.EncodeString(rev.gameName);
    Behind(before, id, name);
    buf.EncodeString(rev.text);
    Behind(before, id + name, Codec.EncodeString(rev.text));
    buf.EncodeInt(1, rev.score);
    Behind(before, id + name + Codec.EncodeString(rev.text), Codec.EncodeInt(1, rev.score));
  }

  lemma EncodeNext<T>(enc: T -> seq<byte>, before: seq<byte>, s: seq<T>, i: nat)
    requires i < |s|
    ensures before + EncodeAll(enc, s[..i + 1]) == before + EncodeAll(enc, s[..i]) + enc(s[i])
  {
    assert s[..i + 1][..i] == s[..i];
  }

  method ReviewsToBytes(m: seq<Review>) returns (b: seq<byte>)
    ensures b == EncodeList(EncodeReview, m)
  {
    var buf := new Buffer([]);
    buf.EncodeLengthOf(|m|);
    for i := 0 to |m|
      invariant fresh(buf)
      invariant buf.unread == EncodeLength(|m|) + EncodeAll(EncodeReview, m[..i])
    {
      ReviewToBuf(buf, m[i]);
      EncodeNext(EncodeReview, EncodeLength(|m|), m, i);
    }
    assert m[..|m|] == m;
    b := buf.unread;
  }

  method ReviewFromBuf(buf: Buffer) returns (r: Option<Review>)
    modifies buf
    ensures Read(r, buf.unread, DecodeReview(old(buf.unread)))
  {
    var id := buf.DecodeInt(8);
    if id.None? {
      return None;
    }
    var name := buf.DecodeString();
    if name.None? {
      return None;
    }
    var text := buf.DecodeString();
    if text.None? {
      return None;
    }
    var score := buf.DecodeInt(1);
    if score.None? {
      return None;
    }
    return Some(Review(id.value, name.value, text.value, score.value));
  }

  /** Once an element is missing, so is the list. */
  lemma {:induction false} ShortStaysShort<T>(dec: seq<byte> -> Decoded<T>, k: nat, n: nat, b: seq<byte>)
    requires k <= n && DecodeTimes(dec, k, b).Short?
    ensures DecodeTimes(dec, n, b).Short?
    decreases n
  {
    if k < n {
      ShortStaysShort(dec, k, n - 1, b);
    }
  }

  lemma DecodeNext<T>(dec: seq<byte> -> Decoded<T>, i: nat, b: seq<byte>, vs: seq<T>, left: seq<byte>)
    requires DecodeTimes(dec, i, b) == Ok(vs, left)
    ensures DecodeTimes(dec, i + 1, b) ==
            match dec(left) case Ok(v, rest) => Ok(vs + [v], rest) case Short => Short
  {
  }

  lemma MapNext(es: seq<Entry>, e: Entry)
    ensures MapOf(es + [e]) == MapOf(es)[e.id := e.texts]
  {
    assert (es + [e])[..|es|] == es;
  }

  method ReviewFromBytes(b: seq<byte>) returns (r: Option<seq<Review>>)
    ensures match DecodeList(DecodeReview, b)
            case Ok(m, rest) => r == Some(m)
            case Short => r == None
  {
    var buf := new Buffer(b);
    var size := buf.DecodeUint(4);
    if size.None? {
      return None;
    }
    ghost var rest := buf.unread;
    var reviews: seq<Review> := [];
    for i := 0 to size.value
      invariant fresh(buf)
      invariant DecodeTimes(DecodeReview, i, rest) == Ok(reviews, buf.unread)
    {
      var rev := ReviewFromBuf(buf);
      if rev.None? {
        ShortStaysShort(DecodeReview, i + 1, size.value, rest);
        return None;
      }
      reviews := reviews + [rev.value];
    }
    return Some(reviews);
  }

  method EncodeTexts(buf: Buffer, id: int64, texts: seq<seq<byte>>)
    modifies buf
    ensures buf.unread == old(buf.unread) + EncodeEntry(Entry(id, texts))
  {
    buf.EncodeInt(8, id);
    buf.EncodeLengthOf(|texts|);
    ghost var before := buf.unread;
    for i := 0 to |texts|
      invariant buf.unread == before + EncodeAll(Codec.EncodeString, texts[..i])
    {
      buf.EncodeString(texts[i]);
      EncodeNext(Codec.EncodeString, before, texts, i);
    }
    assert texts[..|texts|] == texts;
    Behind(old(buf.unread) + Codec.EncodeInt(8, id), EncodeLength(|texts|), EncodeAll(Codec.EncodeString, texts));
    Behind(old(buf.unread), Codec.EncodeInt(8, id), EncodeList(Codec.EncodeString, texts));
  }

  /** The keys walked so far, in order; keys are those to come. */
  ghost predicate Walked(m: TextReviews, order: seq<int64>, keys: set<int64>) {
    && keys <= m.Keys
    && (forall id :: id in order <==> id in m.Keys - keys)
    && (forall i, j :: 0 <= i < j < |order| ==> order[i] != order[j])
  }

  /** written is the map's entries in that order. */
  ghost predicate Written(m: TextReviews, order: seq<int64>, keys: set<int64>, written: seq<byte>) {
    Walked(m, order, keys) && written == EncodeAll(EncodeEntry, Entries(m, order))
  }

  lemma WalkNext(m: TextReviews, order: seq<int64>, keys: set<int64>, written: seq<byte>, id: int64)
    requires Written(m, order, keys, written) && id in keys
    ensures Written(m, order + [id], keys - {id}, written + EncodeEntry(Entry(id, m[id])))
  {
    assert Entries(m, order + [id])[..|order|] == Entries(m, order);
    forall i, j | 0 <= i < j < |order + [id]|
      ensures (order + [id])[i] != (order + [id])[j]
    {
      assert order[i] in order;
    }
  }

  lemma WalkDone(m: TextReviews, order: seq<int64>, written: seq<byte>)
    requires Written(m, order, {}, written)
    ensures Bags.KeyOrder(m, order) && EncodeLength(|m|) + written == EncodeList(EncodeEntry, Entries(m, order))
  {
    KeyCount(m, order);
  }

  /** Go walks the map in an order of its own. */
  method TextReviewsToBytes(m: TextReviews) returns (b: seq<byte>, ghost order: seq<int64>)
    ensures Bags.KeyOrder(m, order) && b == EncodeList(EncodeEntry, Entries(m, order))
  {
    var buf := new Buffer([]);
    buf.EncodeLengthOf(|m|);
    order := [];
    ghost var written: seq<byte> := [];
    var keys := m.Keys;
    while keys != {}
      invariant fresh(buf) && Written(m, order, keys, written)
      invariant buf.unread == EncodeLength(|m|) + written
      decreases |keys|
    {
      Bags.SomeOrNone(keys);
      var id: int64 :| id in keys;
      WalkNext(m, order, keys, written, id);
      EncodeTexts(buf, id, m[id]);
      Behind(EncodeLength(|m|), written, EncodeEntry(Entry(id, m[id])));
      written := written + EncodeEntry(Entry(id, m[id]));
      order := order + [id];
      keys := keys - {id};
    }
    WalkDone(m, order, written);
    b := buf.unread;
  }

  method TextsFromBuf(buf: Buffer) returns (r: Option<Entry>)
    modifies buf
    ensures Read(r, buf.unread, DecodeEntry(old(buf.unread)))
  {
    var id := buf.DecodeInt(8);
    if id.None? {
      return None;
    }
    var count := buf.DecodeUint(4);
    if count.None? {
      return None;
    }
    ghost var rest := buf.unread;
    var texts: seq<seq<byte>> := [];
    for j := 0 to count.value
      invariant DecodeTimes(Codec.DecodeString, j, rest) == Ok(texts, buf.unread)
    {
      var text := buf.DecodeString();
      if text.None? {
        ShortStaysShort(Codec.DecodeString, j + 1, count.value, rest);
        return None;
      }
      texts := texts + [text.value];
    }
    return Some(Entry(id.value, texts));
  }

  /** An id that occurs twice keeps its last texts. */
  method TextReviewFromBytes(b: seq<byte>) returns (r: Option<TextReviews>)
    ensures match DecodeList(DecodeEntry, b)
            case Ok(es, rest) => r == Some(MapOf(es))
            case Short => r == None
  {
    var buf := new Buffer(b);
    var size := buf.DecodeUint(4);
    if size.None? {
      return None;
    }
    ghost var rest := buf.unread;
    ghost var es: seq<Entry> := [];
    var textReviews: TextReviews := map[];
    for i := 0 to size.value
      invariant fresh(buf)
      invariant DecodeTimes(DecodeEntry, i, rest) == Ok(es, buf.unread) && textReviews == MapOf(es)
    {
      DecodeNext(DecodeEntry, i, rest, es, buf.unread);
      var e := TextsFromBuf(buf);
      if e.None? {
        ShortStaysShort(DecodeEntry, i + 1, size.value, rest);
        return None;
      }
      MapNext(es, e.value);
      textReviews := textReviews[e.value.id := e.value.texts];
      es := es + [e.value];
    }
    return Some(textReviews);
  }

  method EofToBytes(visited: seq<byte>) returns (b: seq<byte>)
    ensures b == EncodeEof(visited)
  {
    var buf := new Buffer([]);
    buf.Write(ToBytes(1, |visited| % 256));
    for i := 0 to |visited|
      invariant fresh(buf) && buf.unread == ToBytes(1, |visited| % 256) + visited[..i]
    {
      buf.Write([visited[i]]);
    }
    assert visited[..|visited|] == visited;
    b := buf.unread;
  }

  method EofFromBytes(b: seq<byte>) returns (r: Option<seq<byte>>)
    ensures match DecodeEof(b)
            case Ok(visited, rest) => r == Some(visited)
            case Short => r == None
  {
    if |b| < 1 {
      return None;
    }
    var size := FromBytes(b[..1]);
    var m: seq<byte> := [];
    for i := 0 to size
      invariant i + 1 <= |b| && m == b[1..1 + i]
    {
      if |b| <= i + 1 {
        return None;
      }
      m := m + [b[i + 1]];
    }
    assert b[1..][..size] == b[1..1 + size];
    return Some(m);
  }

  // Whole messages.

  /** A batch of reviews written out is read back as it was. */
  method ReviewsThere(m: seq<Review>) returns (r: Option<seq<Review>>)
    requires |m| < WORD && forall rev :: rev in m ==> Fits(rev.gameName) && Fits(rev.text)
    ensures r == Some(m)
  {
    var b := ReviewsToBytes(m);
    ReviewsRoundTrip(m, []);
    assert b + [] == b;
    r := ReviewFromBytes(b);
  }

  /** So is a map of texts, in whatever order it was walked. */
  method TextReviewsThere(m: TextReviews) returns (r: Option<TextReviews>)
    requires |m| < WORD && forall id :: id in m ==> EntryFits(m[id])
    ensures r == Some(m)
  {
    var b;
    ghost var order;
    b, order := TextReviewsToBytes(m);
    TextReviewsRoundTrip(m, order, []);
    assert b + [] == b;
    r := TextReviewFromBytes(b);
  }
}
