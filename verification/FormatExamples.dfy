/** The stored formats at one value each, byte by byte. */
module FormatExamples {
  import opened Text
  import Base64
  import AttrValues
  import ConditionBlob
  import Tags
  import Uploads

  const STRING_VALUE: AttrValues.AttrVal :=
    AttrValues.AttrVal([110], Ascii("v"), false, 2, Some(Ascii("a:b")), -5)

  lemma StringHead()
    ensures AttrValues.DbHead(STRING_VALUE) == Ascii("S:-5:U:")
  {
    assert Decimal(-5) == [MINUS, 53];
    assert AttrValues.ORIG_CHARS[2] == 85;
  }

  lemma StringDetail()
    ensures AttrValues.DbDetail(STRING_VALUE) == Ascii("a\\:b")
  {
    var d := Ascii("a:b");
    assert d == [97, 58, 98] && d[1..] == [58, 98] && [58, 98][1..] == [98] && [98][1..] == [];
    assert AttrValues.Escape([98]) == [98];
    assert AttrValues.Escape([58, 98]) == [92, 58, 98];
  }

  lemma StringPieces(a: Bytes, b: Bytes, c: Bytes)
    requires a == Ascii("S:-5:U:") && b == Ascii("a\\:b") && c == Ascii("v")
    ensures a + b + [COLON] + c == Ascii("S:-5:U:a\\:b:v")
  {
  }

  /** A user's string value v from a:b at -5: kind, time, origin, escaped detail, value. */
  lemma StoredString()
    ensures AttrValues.ToDbFull(STRING_VALUE) == Some(Ascii("S:-5:U:a\\:b:v"))
  {
    StringHead();
    StringDetail();
    StringPieces(AttrValues.DbHead(STRING_VALUE), AttrValues.DbDetail(STRING_VALUE), AttrValues.DbValue(STRING_VALUE));
  }

  /** The examples of section 10 of RFC 4648. */
  lemma EncodedBytes()
    ensures Base64.Encode(Ascii("foo")) == Ascii("Zm9v")
    ensures Base64.Encode(Ascii("fo")) == Ascii("Zm8=") && Base64.Encode(Ascii("f")) == Ascii("Zg==")
  {
    assert Ascii("foo") == [102, 111, 111] && Ascii("fo") == [102, 111] && Ascii("f") == [102];
    assert Base64.EncodeThree(102, 111, 111) == Ascii("Zm9v");
    assert Base64.EncodeThree(102, 111, 0)[..3] == Ascii("Zm8");
    assert Base64.EncodeThree(102, 0, 0)[..2] == Ascii("Zg");
  }

  const BINARY_VALUE: AttrValues.AttrVal := AttrValues.AttrVal([110], Ascii("foo"), true, 3, None, 0)

  lemma BinaryHead()
    ensures AttrValues.DbHead(BINARY_VALUE) == Ascii("B:0:F:")
  {
    assert Decimal(0) == [48];
    assert AttrValues.ORIG_CHARS[3] == 70;
  }

  lemma BinaryPieces(a: Bytes, c: Bytes)
    requires a == Ascii("B:0:F:") && c == Ascii("Zm9v")
    ensures a + [] + [COLON] + c == Ascii("B:0:F::Zm9v")
  {
  }

  /** A binary value from a file, without detail, at 0. */
  lemma StoredBinary()
    ensures AttrValues.ToDbFull(BINARY_VALUE) == Some(Ascii("B:0:F::Zm9v"))
  {
    EncodedBytes();
    BinaryHead();
    BinaryPieces(AttrValues.DbHead(BINARY_VALUE), AttrValues.DbValue(BINARY_VALUE));
  }

  /** The file of one tag n with the value v at 7: magic number, length, name, time and
      kind, value. */
  lemma TagFile()
    ensures Tags.Image([Tags.Tag(Ascii("n"), 7, false, Some(Ascii("v")))])
         == [0x74, 0xc0, 0x16, 0xf2, 0, 0, 0, 7, 110, 0, 55, 32, 83, 0, 118]
  {
    var t := Tags.Tag(Ascii("n"), 7, false, Some(Ascii("v")));
    assert Tags.Body(t) == [110, 0, 55, 32, 83, 0, 118] by {
      assert Decimal(7) == [55];
    }
    assert Tags.Record(t) == [0, 0, 0, 7, 110, 0, 55, 32, 83, 0, 118];
    assert [t][1..] == [];
    assert Tags.MAGIC_BYTES == [0x74, 0xc0, 0x16, 0xf2];
  }

  const A_LESS_5: ConditionBlob.CondRec :=
    ConditionBlob.CondRec(Ascii("a"), AttrValues.LESS, false, Some(Ascii("5")), None)

  lemma ConditionName()
    ensures ConditionBlob.NameBytes(Ascii("a")) == [67, 79, 78, 68, 2, 0, 0, 0, 97, 0]
  {
    assert Ascii("a") + [NUL] == [97, 0];
  }

  lemma ConditionKind()
    ensures ConditionBlob.KindBytes(AttrValues.LESS, false) == [3, 0, 0, 0, 0, 0, 0, 0]
  {
  }

  lemma ConditionArgs()
    ensures ConditionBlob.Field(ConditionBlob.ArgBytes(A_LESS_5, A_LESS_5.value)) == [2, 0, 0, 0, 53, 0]
    ensures ConditionBlob.Field(ConditionBlob.ArgBytes(A_LESS_5, A_LESS_5.value2)) == [0, 0, 0, 0]
  {
    assert Ascii("5") + [NUL] == [53, 0];
  }

  lemma OneRecord(q: ConditionBlob.CondRec)
    ensures ConditionBlob.EncodeAll([q]) == ConditionBlob.RecBytes(q)
  {
    assert [q][1..] == [];
    assert ConditionBlob.EncodeAll([]) == [];
    assert ConditionBlob.RecBytes(q) + [] == ConditionBlob.RecBytes(q);
  }

  lemma FourPieces(a: Bytes, b: Bytes, c: Bytes, d: Bytes)
    requires a == [67, 79, 78, 68, 2, 0, 0, 0, 97, 0] && b == [3, 0, 0, 0, 0, 0, 0, 0]
    requires c == [2, 0, 0, 0, 53, 0] && d == [0, 0, 0, 0]
    ensures [] + a + b + c + d
         == [67, 79, 78, 68, 2, 0, 0, 0, 97, 0, 3, 0, 0, 0, 0, 0, 0, 0, 2, 0, 0, 0, 53, 0, 0, 0, 0, 0]
  {
  }

  /** The blob of the condition a < 5: COND, name, LESS, string, value, no second value. */
  lemma StoredCondition()
    ensures ConditionBlob.EncodeAll([A_LESS_5])
         == [67, 79, 78, 68, 2, 0, 0, 0, 97, 0, 3, 0, 0, 0, 0, 0, 0, 0, 2, 0, 0, 0, 53, 0, 0, 0, 0, 0]
  {
    var q := A_LESS_5;
    ConditionName();
    ConditionKind();
    ConditionArgs();
    OneRecord(q);
    ConditionBlob.RecSplit(q, []);
    FourPieces(ConditionBlob.NameBytes(q.attr), ConditionBlob.KindBytes(q.op, q.binary),
               ConditionBlob.Field(ConditionBlob.ArgBytes(q, q.value)),
               ConditionBlob.Field(ConditionBlob.ArgBytes(q, q.value2)));
    assert [] + ConditionBlob.RecBytes(q) == ConditionBlob.RecBytes(q);
  }

  /** Where a file is stored: prefix, owner, week of registration, job, file. */
  lemma StoredPath(job: Bytes)
    ensures Uploads.PathOf(Ascii("/p"), Uploads.JobInfo(job, Ascii("o"), 1300000), (Ascii("j"), Ascii("c.n")))
         == Ascii("/p/data/o/2/j/c.n")
  {
    assert Decimal(2) == [50];
    assert Uploads.Week(1300000) == 2;
    assert Ascii("/p") + Ascii("/data/") + Ascii("o/2/j/c.n") == Ascii("/p/data/o/2/j/c.n");
    var info, key := Uploads.JobInfo(job, Ascii("o"), 1300000), (Ascii("j"), Ascii("c.n"));
    assert Uploads.PathTail(info, key) == Ascii("o/2/j/c.n");
  }
}
