/** Escapes and UTF-8 together: rendering and decoding keep texts valid. */
module JsonStrings {
  import opened Wrappers
  import opened Lines
  import opened Utf8
  import opened JsonText

  predicate Ascii(b: seq<byte>) {
    forall i :: 0 <= i < |b| ==> b[i] < 0x80
  }

  predicate Raised(b: seq<byte>) {
    forall i :: 0 <= i < |b| ==> b[i] >= 0x80
  }

  lemma {:induction false} AsciiIsValid(b: seq<byte>)
    requires Ascii(b)
    ensures Valid(b)
    decreases |b|
  {
    if b != [] {
      AsciiIsValid(b[1..]);
      assert b[..1] == [b[0]];
    }
  }

  lemma WholeKinds(w: seq<byte>)
    requires Whole(w)
    ensures if |w| == 1 then Ascii(w) else Raised(w)
  {
  }

  lemma EncodeIsWhole(c: nat)
    requires c <= 0x10ffff && !High(c) && !LowHalf(c)
    ensures Whole(Encode(c))
  {
  }

  // ----- rendering

  lemma RenderCons(b: byte, s: seq<byte>)
    ensures RenderText([b] + s) == Quoted(b) + RenderText(s)
  {
    assert ([b] + s)[1..] == s;
  }

  lemma {:induction false} RaisedRenders(w: seq<byte>, rest: seq<byte>)
    requires Raised(w)
    ensures RenderText(w + rest) == w + RenderText(rest)
    decreases |w|
  {
    if w == [] {
      assert w + rest == rest;
    } else {
      var h, t := w[0], w[1..];
      assert w == [h] + t && Quoted(h) == [h];
      hide Quoted, RenderText;
      RaisedRenders(t, rest);
      Regroup([h], t, rest);
      RenderCons(h, t + rest);
      Regroup([h], t, RenderText(rest));
    }
  }

  lemma QuotedIsAscii(b: byte)
    requires b < 0x80
    ensures Ascii(Quoted(b))
  {
  }

  lemma {:induction false} RenderIsValid(t: seq<byte>)
    requires Valid(t)
    ensures Valid(RenderText(t))
    decreases |t|
  {
    if t == [] {
    } else {
      hide Valid, Whole, Quoted;
      var w, rest := Uncons(t);
      RenderIsValid(rest);
      WholeKinds(w);
      if |w| == 1 {
        assert t[0] == w[0] && t[1..] == rest;
        QuotedIsAscii(w[0]);
        AsciiIsValid(Quoted(w[0]));
        ValidConcat(Quoted(w[0]), RenderText(rest));
      } else {
        RaisedRenders(w, rest);
        WholeIsValid(w);
        ValidConcat(w, RenderText(rest));
      }
    }
  }

  // ----- decoding

  lemma DecodeRaised(b: byte, s: seq<byte>)
    requires b >= 0x80 && Decode([b] + s).Some?
    ensures Decode(s).Some? && Decode([b] + s).value == [b] + Decode(s).value
  {
    assert NextPiece([b] + s) == Some((1, [b]));
    hide NextPiece;
    assert ([b] + s)[1..] == s;
  }

  lemma {:induction false} RaisedDecodes(w: seq<byte>, rest: seq<byte>)
    requires Raised(w) && Decode(w + rest).Some?
    ensures Decode(rest).Some? && Decode(w + rest).value == w + Decode(rest).value
    decreases |w|
  {
    if w == [] {
      assert w + rest == rest;
      assert [] + Decode(rest).value == Decode(rest).value;
    } else {
      var h, t := w[0], w[1..];
      assert w == [h] + t;
      hide Decode;
      Regroup([h], t, rest);
      DecodeRaised(h, t + rest);
      RaisedDecodes(t, rest);
      Regroup([h], t, Decode(rest).value);
    }
  }

  /** A piece that starts with an ASCII byte is made of ASCII bytes and stands for whole characters. */
  lemma PieceIsValid(body: seq<byte>)
    requires body != [] && body[0] < 0x80 && NextPiece(body).Some?
    ensures Ascii(body[..NextPiece(body).value.0]) && Valid(NextPiece(body).value.1)
  {
    var k, text := NextPiece(body).value.0, NextPiece(body).value.1;
    if k <= 2 {
      AsciiIsValid(text);
    } else {
      CodeBound(body[2..6]);
      EscapeIsAscii(body);
      var c := Code(body[2..6]);
      if k == 12 {
        EscapeIsAscii(body[6..]);
        assert body[..12] == body[..6] + body[6..][..6];
        var c' := Joined(c, Code(body[6..][2..6]));
        EncodeIsWhole(c');
        WholeIsValid(Encode(c'));
      } else {
        EncodeIsWhole(c);
        WholeIsValid(Encode(c));
      }
    }
  }

  lemma EscapeIsAscii(s: seq<byte>)
    requires UnicodeEscape(s)
    ensures Ascii(s[..6])
  {
    forall i | 0 <= i < 6 ensures s[i] < 0x80 {
      if i >= 2 {
        assert s[i] == s[2..6][i - 2];
      }
    }
  }

  lemma {:induction false} DecodeIsValid(body: seq<byte>)
    requires Valid(body) && Decode(body).Some?
    ensures Valid(Decode(body).value)
    decreases |body|
  {
    if body == [] {
    } else {
      hide Valid, Whole, NextPiece;
      var w, rest := Uncons(body);
      WholeKinds(w);
      if |w| == 1 {
        assert body[0] == w[0];
        PieceIsValid(body);
        var k, text := NextPiece(body).value.0, NextPiece(body).value.1;
        assert body == body[..k] + body[k..];
        AsciiIsValid(body[..k]);
        ValidConcat(body[..k], body[k..]);
        DecodeIsValid(body[k..]);
        ValidConcat(text, Decode(body[k..]).value);
      } else {
        RaisedDecodes(w, rest);
        DecodeIsValid(rest);
        WholeIsValid(w);
        ValidConcat(w, Decode(rest).value);
      }
    }
  }
}
