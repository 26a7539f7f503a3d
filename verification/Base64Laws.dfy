/** The alphabet, the test vectors of section 10 of RFC 4648, and the characters that decoding passes over. */
module Base64Laws {
  import opened Base64

  const UPPER := "ABCDEFGHIJKLMNOPQRSTUVWXYZ"
  const LOWER := "abcdefghijklmnopqrstuvwxyz"
  const ALPHABET := UPPER + LOWER + "0123456789" + "+/"

  lemma AlphabetSize()
    ensures |UPPER| == |LOWER| == 26 && |ALPHABET| == 64
  {
  }

  /** The symbols are those of table 1 of RFC 4648, in its order. */
  lemma SymbolIs(v: sextet)
    ensures |ALPHABET| == 64 && Symbol(v) == ALPHABET[v]
  {
    AlphabetSize();
    hide UPPER, LOWER;
    if v < 26 {
      Upper(v);
    } else if v < 52 {
      Lower(v - 26);
    }
  }

  lemma Upper(n: nat)
    requires n < 26
    ensures |UPPER| == 26 && UPPER[n] == 'A' + n as char
  {
  }

  lemma Lower(n: nat)
    requires n < 26
    ensures |LOWER| == 26 && LOWER[n] == 'a' + n as char
  {
  }

  /** A text is refused exactly when it holds a character that is not of the alphabet, no white space and no padding. */
  lemma RefusesForeign(text: string)
    ensures Decode(text).None? <==>
            exists i :: 0 <= i < |text| && text[i] !in ALPHABET
                        && text[i] !in [' ', '\t', '\n', 11 as char, 12 as char, '\r', '=']
  {
    RefusedIff(text);
    forall i | 0 <= i < |text|
      ensures (!Skipped(text[i]) && Reverse(text[i]) == 64)
              <==> (text[i] !in ALPHABET && text[i] !in [' ', '\t', '\n', 11 as char, 12 as char, '\r', '='])
    {
      Foreign(text[i]);
    }
    hide Decode, Skipped, Reverse, ALPHABET;
  }

  lemma Foreign(c: char)
    ensures Reverse(c) == 64 <==> c !in ALPHABET
    ensures Skipped(c) <==> c in [' ', '\t', '\n', 11 as char, 12 as char, '\r', '=']
  {
    AlphabetSize();
    if Reverse(c) < 64 {
      SymbolIs(Reverse(c));
      SymbolOfReverse(c);
    }
    forall v: nat | v < 64
      ensures ALPHABET[v] == c ==> Reverse(c) != 64
    {
      SymbolIs(v);
      SymbolReverse(v);
    }
    hide ALPHABET;
  }

  lemma SymbolOfReverse(c: char)
    requires Reverse(c) < 64
    ensures Symbol(Reverse(c)) == c
  {
  }

  /** White space and padding make no difference, wherever they are. */
  lemma PassedOver(before: string, c: char, after: string)
    requires c in [' ', '\t', '\n', 11 as char, 12 as char, '\r', '=']
    ensures Decode(before + [c] + after) == Decode(before + after)
  {
    Unseen(before, c, after);
    hide Values, Bytes;
  }

  lemma {:induction false} Unseen(before: string, c: char, after: string)
    requires Skipped(c)
    ensures Values(before + [c] + after) == Values(before + after)
    decreases |after|
  {
    hide Values, Reverse, Skipped;
    if after == "" {
      ValuesSnoc(before, c);
      assert before + [c] + after == before + [c] && before + after == before;
      assert Longer(Values(before), c) == Values(before);
    } else {
      var n := |after| - 1;
      Unseen(before, c, after[..n]);
      ValuesSnoc(before + [c] + after[..n], after[n]);
      ValuesSnoc(before + after[..n], after[n]);
      assert before + [c] + after == before + [c] + after[..n] + [after[n]];
      assert before + after == before + after[..n] + [after[n]];
    }
  }

  /** The bytes of a text. */
  function Ascii(text: string): seq<byte>
    requires forall i :: 0 <= i < |text| ==> text[i] < 128 as char
  {
    seq(|text|, i requires 0 <= i < |text| => text[i] as nat)
  }

  lemma Vectors()
    ensures Encode(Ascii("")) == "" && Encode(Ascii("f")) == "Zg==" && Encode(Ascii("fo")) == "Zm8="
    ensures Encode(Ascii("foo")) == "Zm9v" && Encode(Ascii("foob")) == "Zm9vYg==" && Encode(Ascii("fooba")) == "Zm9vYmE="
    ensures Encode(Ascii("foobar")) == "Zm9vYmFy"
  {
    ShortVectors();
    LongVectors();
  }

  lemma ShortVectors()
    ensures Encode(Ascii("")) == "" && Encode(Ascii("f")) == "Zg==" && Encode(Ascii("fo")) == "Zm8="
  {
    assert Ascii("f") == [102] && Ascii("fo") == [102, 111];
  }

  lemma Foo(rest: seq<byte>)
    ensures Encode([102, 111, 111] + rest) == "Zm9v" + Encode(rest)
  {
    var data := [102, 111, 111] + rest;
    assert data[3..] == rest;
    hide Encode;
    assert Three(102, 111, 111) == "Zm9v";
    GroupOf(data);
  }

  lemma GroupOf(data: seq<byte>)
    requires |data| >= 3
    ensures Encode(data) == Three(data[0], data[1], data[2]) + Encode(data[3..])
  {
  }

  lemma LongVectors()
    ensures Encode(Ascii("foo")) == "Zm9v" && Encode(Ascii("foob")) == "Zm9vYg==" && Encode(Ascii("fooba")) == "Zm9vYmE="
    ensures Encode(Ascii("foobar")) == "Zm9vYmFy"
  {
    assert Ascii("foo") == [102, 111, 111] + [] && Ascii("foob") == [102, 111, 111] + [98];
    assert Ascii("fooba") == [102, 111, 111] + [98, 97] && Ascii("foobar") == [102, 111, 111] + [98, 97, 114];
    Foo([]);
    Foo([98]);
    Foo([98, 97]);
    Foo([98, 97, 114]);
    assert Encode([]) == "" && Encode([98]) == "Yg==" && Encode([98, 97]) == "YmE=";
    assert [98, 97, 114][3..] == [] && Encode([98, 97, 114]) == "YmFy";
  }
}
