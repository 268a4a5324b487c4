/** A reader of the fixture's PDF finds every object through the table and every stream by its length. */
module PdfLaws {
  import opened Numerals
  import opened Options
  import opened PdfFile

  // ---- pieces of a text ----

  lemma {:induction false} PieceAt(a: string, piece: string, b: string)
    ensures At(a + piece + b, |a|, piece)
  {
  }

  lemma {:induction false} PieceWithin(s: string, pos: nat, piece: string, q: nat, inner: string)
    requires At(s, pos, piece) && At(piece, q, inner)
    ensures At(s, pos + q, inner)
  {
    forall k | 0 <= k < |inner| ensures s[pos + q + k] == inner[k] {
      assert s[pos..pos + |piece|][q + k] == piece[q + k] == piece[q..q + |inner|][k];
    }
    assert s[pos + q..pos + q + |inner|] == inner;
  }

  lemma {:induction false} FirstOfPiece(s: string, pos: nat, ch: char)
    requires At(s, pos, [ch])
    ensures pos < |s| && s[pos..][0] == ch
  {
    assert s[pos..pos + 1][0] == s[pos];
  }

  lemma {:induction false} FrontDigits(less: string, last: char)
    requires AllDigits(less + [last])
    ensures AllDigits(less) && IsDigit(last)
  {
    forall i | 0 <= i < |less| ensures IsDigit(less[i]) { assert less[i] == (less + [last])[i]; }
    assert last == (less + [last])[|less|];
  }

  lemma {:induction false} NoneTrailing(s: string)
    requires s == "" || !IsDigit(s[|s| - 1])
    ensures TrailingDigits(s) == 0
  {
  }

  lemma {:induction false} OneMoreTrailing(s: string, last: char)
    requires IsDigit(last)
    ensures TrailingDigits(s + [last]) == TrailingDigits(s) + 1
  {
    assert (s + [last])[..|s|] == s;
  }

  lemma {:induction false} TrailingAt(front: string, digits: string)
    requires AllDigits(digits) && (front == "" || !IsDigit(front[|front| - 1]))
    ensures TrailingDigits(front + digits) == |digits|
    decreases |digits|
  {
    hide IsDigit, AllDigits, TrailingDigits;
    if digits == "" {
      assert front + digits == front;
      NoneTrailing(front);
    } else {
      var less, last := digits[..|digits| - 1], digits[|digits| - 1];
      assert digits == less + [last];
      FrontDigits(less, last);
      TrailingAt(front, less);
      OneMoreTrailing(front + less, last);
      assert front + digits == front + less + [last];
    }
  }

  lemma {:induction false} LeadingAt(digits: string, rest: string)
    requires AllDigits(digits) && (rest == "" || !IsDigit(rest[0]))
    ensures LeadingDigits(digits + rest) == |digits|
    decreases |digits|
  {
    if digits == "" {
      assert digits + rest == rest;
    } else {
      assert (digits + rest)[1..] == digits[1..] + rest;
      assert forall i :: 0 <= i < |digits| - 1 ==> digits[1..][i] == digits[i + 1];
      LeadingAt(digits[1..], rest);
    }
  }

  lemma {:induction false} NumberIsRead(front: string, key: string, n: nat)
    requires key != "" && !IsDigit(key[|key| - 1])
    ensures NumberAfter(front + key + Decimal(n), key) == Some(n)
  {
    hide Read, AllDigits, TrailingDigits;
    var s := front + key + Decimal(n);
    ReadDecimal(n);
    TrailingAt(front + key, Decimal(n));
    assert s[..|s| - |Decimal(n)|] == front + key;
    assert s[|s| - |Decimal(n)|..] == Decimal(n);
  }

  // ---- the table ----

  lemma {:induction false} UptoGrows(bodies: seq<string>, j: nat, k: nat)
    requires j <= k <= |bodies|
    ensures At(Upto(bodies, k), 0, Upto(bodies, j))
    ensures j < k ==> |Upto(bodies, j)| < |Upto(bodies, k)|
    decreases k
  {
    if j < k {
      UptoGrows(bodies, j, k - 1);
      PieceWithin(Upto(bodies, k), 0, Upto(bodies, k - 1), 0, Upto(bodies, j));
    }
  }

  /** Object i stands at its offset. */
  lemma {:induction false} ObjectAt(bodies: seq<string>, oid: nat)
    requires 1 <= oid <= |bodies|
    ensures At(Upto(bodies, |bodies|), Offset(bodies, oid), Object(oid, bodies[oid - 1]))
  {
    hide Object;
    UptoGrows(bodies, oid, |bodies|);
    assert At(Upto(bodies, oid), Offset(bodies, oid), Object(oid, bodies[oid - 1]));
    PieceWithin(Upto(bodies, |bodies|), 0, Upto(bodies, oid), Offset(bodies, oid), Object(oid, bodies[oid - 1]));
  }

  /** Every offset fits the ten digits of its entry. */
  predicate Fits(bodies: seq<string>) {
    bodies != [] ==> Offset(bodies, |bodies|) < Pow10(10)
  }

  lemma {:induction false} OffsetsFit(bodies: seq<string>, oid: nat)
    requires Fits(bodies) && 1 <= oid <= |bodies|
    ensures Offset(bodies, oid) < Pow10(10)
  {
    hide Upto, Pow10;
    UptoGrows(bodies, oid - 1, |bodies| - 1);
  }

  lemma {:induction false} TableLength(bodies: seq<string>, k: nat)
    requires Fits(bodies) && k <= |bodies|
    ensures |Table(bodies, k)| == 20 * (k + 1)
  {
    hide Offset, Fits, Padded;
    if k > 0 {
      TableLength(bodies, k - 1);
      OffsetsFit(bodies, k);
      PaddedWidth(Offset(bodies, k), 10);
    }
  }

  /** The table is 20 bytes an entry exactly when the offsets fit; beyond that, entries grow out of line. */
  lemma {:induction false} TableInLine(bodies: seq<string>)
    ensures Fits(bodies) <==> |Table(bodies, |bodies|)| == 20 * (|bodies| + 1)
  {
    hide Offset, Table, Padded, Pow10;
    if Fits(bodies) {
      TableLength(bodies, |bodies|);
    } else {
      TableAtLeast(bodies, |bodies| - 1);
      TableLast(bodies, |bodies|);
      PaddedWidth(Offset(bodies, |bodies|), 10);
    }
  }

  lemma {:induction false} TableLast(bodies: seq<string>, k: nat)
    requires 0 < k <= |bodies|
    ensures |Table(bodies, k)| == |Table(bodies, k - 1)| + |Padded(Offset(bodies, k), 10)| + 10
  {
  }

  lemma {:induction false} TableAtLeast(bodies: seq<string>, k: nat)
    requires k <= |bodies|
    ensures |Table(bodies, k)| >= 20 * (k + 1)
  {
    hide Offset, Padded;
    if k > 0 { TableAtLeast(bodies, k - 1); }
  }

  lemma {:induction false} EntryInTable(bodies: seq<string>, oid: nat, k: nat)
    requires Fits(bodies) && 1 <= oid <= k <= |bodies|
    ensures At(Table(bodies, k), 20 * oid, Padded(Offset(bodies, oid), 10) + InUse())
    decreases k
  {
    hide Offset, Fits, Padded;
    TableLength(bodies, k - 1);
    if oid < k {
      EntryInTable(bodies, oid, k - 1);
      assert At(Table(bodies, k), 0, Table(bodies, k - 1));
      PieceWithin(Table(bodies, k), 0, Table(bodies, k - 1), 20 * oid, Padded(Offset(bodies, oid), 10) + InUse());
    }
  }

  lemma {:induction false} TailLength()
    ensures |InUse()| == 10
  {
  }

  lemma {:induction false} EntryIsRead(file: string, e: nat, offset: nat)
    requires offset < Pow10(10) && At(file, e, Padded(offset, 10) + InUse())
    ensures EntryOffset(file, e) == Some(offset)
  {
    TailLength();
    hide Read, AllDigits, Padded, Pow10, InUse;
    PaddedWidth(offset, 10);
    ReadsPadded(offset, 10);
    var entry := Padded(offset, 10) + InUse();
    assert |entry| == 20 && file[e..e + 20] == entry;
    assert file[e..e + 10] == file[e..e + 20][..10];
    assert entry[..10] == Padded(offset, 10);
    assert file[e + 10..e + 20] == file[e..e + 20][10..];
    assert entry[10..] == InUse();
  }

  /** Where the table's entries start. */
  function TableAt(bodies: seq<string>): nat { XrefAt(bodies) + |XrefHead(bodies)| }

  function Closing(bodies: seq<string>): string {
    TrailerDict(bodies) + StartKey() + Decimal(XrefAt(bodies)) + Eof()
  }

  lemma {:induction false} FileParts(bodies: seq<string>)
    ensures var objects, head, table := Upto(bodies, |bodies|), XrefHead(bodies), Table(bodies, |bodies|);
            At(File(bodies), 0, objects) && At(File(bodies), XrefAt(bodies), head + table)
            && At(File(bodies), XrefAt(bodies), head) && At(File(bodies), TableAt(bodies), table)
            && File(bodies) == objects + (head + table) + Closing(bodies)
  {
    hide Upto, XrefHead, Table, TrailerDict, StartKey, Eof;
    var objects, head, table := Upto(bodies, |bodies|), XrefHead(bodies), Table(bodies, |bodies|);
    assert File(bodies) == objects + (head + table) + Closing(bodies);
    PieceAt(objects, head + table, Closing(bodies));
    PieceWithin(File(bodies), |objects|, head + table, 0, head);
    PieceWithin(File(bodies), |objects|, head + table, |head|, table);
    assert File(bodies)[0..|objects|] == objects;
  }

  lemma {:induction false} StartIsRead(bodies: seq<string>)
    ensures StartXref(File(bodies)) == Some(XrefAt(bodies))
  {
    hide Upto, XrefHead, Table, TrailerDict, XrefAt;
    var file := File(bodies);
    var front := Upto(bodies, |bodies|) + XrefHead(bodies) + Table(bodies, |bodies|) + TrailerDict(bodies);
    assert file == (front + StartKey() + Decimal(XrefAt(bodies))) + Eof();
    assert file[..|file| - |Eof()|] == front + StartKey() + Decimal(XrefAt(bodies));
    NumberIsRead(front, StartKey(), XrefAt(bodies));
  }

  lemma {:induction false} SectionIsRead(file: string, x: nat, n: nat)
    requires At(file, x, "xref\n0 " + Decimal(n) + "\n")
    ensures Section(file, x) == Some((n, x + 7 + |Decimal(n)| + 1))
  {
    hide Read, AllDigits, LeadingDigits;
    var head := "xref\n0 " + Decimal(n) + "\n";
    ReadDecimal(n);
    PieceWithin(file, x, head, 0, "xref\n0 ");
    PieceWithin(file, x, head, 7, Decimal(n));
    PieceWithin(file, x, head, 7 + |Decimal(n)|, "\n");
    var rest := file[x + 7 + |Decimal(n)|..];
    assert file[x + 7..] == Decimal(n) + rest;
    FirstOfPiece(file, x + 7 + |Decimal(n)|, '\n');
    LeadingAt(Decimal(n), rest);
  }

  lemma {:induction false} ObjectParts(oid: nat, body: string)
    ensures At(Object(oid, body), 0, ObjHead(oid)) && At(Object(oid, body), |ObjHead(oid)|, body + EndObj())
  {
  }

  /** Through startxref and its table entry, every object of 1..3+3n is found where it starts, with its body and end
      marker following. */
  lemma {:induction false} EveryObjectIsFound(bodies: seq<string>, oid: nat)
    requires Fits(bodies) && 1 <= oid <= |bodies|
    ensures FindObject(File(bodies), oid) == Some(Offset(bodies, oid) + |ObjHead(oid)|)
    ensures At(File(bodies), Offset(bodies, oid) + |ObjHead(oid)|, bodies[oid - 1] + EndObj())
  {
    hide Upto, Table, File, Offset, Fits, XrefAt, Padded, EntryOffset, Section, StartXref, ObjHead, EndObj, At,
         Object, InUse;
    ObjectParts(oid, bodies[oid - 1]);
    var file, piece := File(bodies), Object(oid, bodies[oid - 1]);
    FileParts(bodies);
    StartIsRead(bodies);
    SectionIsRead(file, XrefAt(bodies), |bodies| + 1);
    OffsetsFit(bodies, oid);
    EntryInTable(bodies, oid, |bodies|);
    PieceWithin(file, TableAt(bodies), Table(bodies, |bodies|), 20 * oid, Padded(Offset(bodies, oid), 10) + InUse());
    EntryIsRead(file, TableAt(bodies) + 20 * oid, Offset(bodies, oid));
    ObjectAt(bodies, oid);
    PieceWithin(file, 0, Upto(bodies, |bodies|), Offset(bodies, oid), piece);
    PieceWithin(file, Offset(bodies, oid), piece, 0, ObjHead(oid));
    PieceWithin(file, Offset(bodies, oid), piece, |ObjHead(oid)|, bodies[oid - 1] + EndObj());
  }

  /** The objects tile the file from the header to the table: nothing stands between them. */
  lemma {:induction false} ObjectsTile(bodies: seq<string>, oid: nat)
    requires 1 <= oid <= |bodies|
    ensures Offset(bodies, 1) == |Header()|
    ensures var next := Offset(bodies, oid) + |Object(oid, bodies[oid - 1])|;
            next == if oid == |bodies| then XrefAt(bodies) else Offset(bodies, oid + 1)
  {
    hide Object;
  }

  // ---- streams ----

  predicate NoClose(s: string) {
    '>' !in s
  }

  lemma {:induction false} DictEndAt(dict: string, rest: string)
    requires NoClose(dict) && rest != "" && rest[0] == '>'
    ensures DictEnd(dict + rest) == |dict|
  {
    if dict == "" {
      assert dict + rest == rest;
    } else {
      assert (dict + rest)[1..] == dict[1..] + rest;
      assert forall c :: c in dict[1..] ==> c in dict;
      DictEndAt(dict[1..], rest);
    }
  }

  lemma {:induction false} NumeralsDontClose(n: nat)
    ensures NoClose(Decimal(n))
  {
    hide Decimal, Read;
    ReadDecimal(n);
    forall c | c in Decimal(n) ensures c != '>' {
      var i :| 0 <= i < |Decimal(n)| && Decimal(n)[i] == c;
    }
  }

  /** Everything of a stream object up to its dictionary's close. */
  function Opening(dict: string, n: nat): string {
    "<< " + dict + "/Length " + Decimal(n) + " "
  }

  lemma {:induction false} LengthIsRead(dict: string, n: nat, after: string)
    requires NoClose(dict) && after != "" && after[0] == '>'
    ensures var s, k := Opening(dict, n) + after, |Opening(dict, n)|;
            DictEnd(s) == k && LengthOf(s) == Some(n)
  {
    hide NumberAfter, DictEnd, NoClose, Decimal;
    var s := Opening(dict, n) + after;
    DictCloses(dict, n);
    DictEndAt(Opening(dict, n), after);
    NumberIsRead("<< " + dict, "/Length ", n);
    assert s[..|Opening(dict, n)|] == Opening(dict, n);
    assert s[..|Opening(dict, n)| - 1] == "<< " + dict + "/Length " + Decimal(n);
  }

  lemma {:induction false} DataIsBetween(front: string, data: string, rest: string)
    ensures var s := front + (StreamKey() + data + EndStream() + rest);
            var from := |front| + |StreamKey()|;
            At(s, |front|, StreamKey()) && from + |data| <= |s| && s[from..from + |data|] == data
            && At(s, from + |data|, EndStream())
  {
    hide StreamKey, EndStream;
    var s := front + (StreamKey() + data + EndStream() + rest);
    assert s == front + StreamKey() + (data + EndStream() + rest);
    PieceAt(front, StreamKey(), data + EndStream() + rest);
    assert s == front + StreamKey() + data + (EndStream() + rest);
    assert s == (front + StreamKey() + data) + EndStream() + rest;
    PieceAt(front + StreamKey() + data, EndStream(), rest);
  }

  /** A stream's `/Length` is the number of bytes between its markers, whatever the bytes and whatever follows. */
  lemma {:induction false} StreamIsRead(dict: string, data: string, rest: string)
    requires NoClose(dict)
    ensures ReadStream(StreamBody(dict, data) + rest) == Some(data)
  {
    var front, after := Opening(dict, |data|), StreamKey() + data + EndStream() + rest;
    assert StreamBody(dict, data) + rest == front + after by { BodyOpens(dict, data, rest); }
    hide LengthOf, DictEnd, NoClose, At, Opening, StreamKey, EndStream, StreamBody;
    assert after != "" && after[0] == '>' by { KeyCloses(data, rest); }
    LengthIsRead(dict, |data|, after);
    DataIsBetween(front, data, rest);
  }

  lemma {:induction false} KeyCloses(data: string, rest: string)
    ensures var after := StreamKey() + data + EndStream() + rest; after != "" && after[0] == '>'
  {
  }

  lemma {:induction false} BodyOpens(dict: string, data: string, rest: string)
    ensures StreamBody(dict, data) + rest == Opening(dict, |data|) + (StreamKey() + data + EndStream() + rest)
  {
    hide Decimal;
    var front := "<< " + dict + "/Length " + Decimal(|data|);
    assert " >>\nstream\n" == " " + StreamKey();
    assert StreamBody(dict, data) == front + (" " + StreamKey()) + data + EndStream();
    assert Opening(dict, |data|) == front + " ";
  }

  lemma {:induction false} DictCloses(dict: string, n: nat)
    requires NoClose(dict)
    ensures NoClose("<< " + dict + "/Length " + Decimal(n) + " ")
  {
    hide Decimal;
    NumeralsDontClose(n);
  }

  /** The stream of object `oid`, read through the table. */
  function StreamOf(file: string, oid: nat): Option<string> {
    var body := FindObject(file, oid);
    if body.Some? && body.value <= |file| then ReadStream(file[body.value..]) else None
  }

  lemma {:induction false} StreamIsFound(bodies: seq<string>, oid: nat, dict: string, data: string)
    requires Fits(bodies) && 1 <= oid <= |bodies| && bodies[oid - 1] == StreamBody(dict, data) && NoClose(dict)
    ensures StreamOf(File(bodies), oid) == Some(data)
  {
    hide FindObject, ReadStream, File, StreamBody, NoClose, Fits, Offset, ObjHead, EndObj;
    EveryObjectIsFound(bodies, oid);
    StreamAt(File(bodies), Offset(bodies, oid) + |ObjHead(oid)|, dict, data);
  }

  lemma {:induction false} PageOf(pages: seq<Page>, n: nat, i: nat)
    requires i < n <= |pages|
    ensures AllPages(pages, n)[3 * i..3 * i + 3] == PageBodies(pages[i], i)
  {
    hide PageBodies;
    if i < n - 1 {
      PageOf(pages, n - 1, i);
      assert AllPages(pages, n)[3 * i..3 * i + 3] == AllPages(pages, n - 1)[3 * i..3 * i + 3];
    }
  }

  lemma {:induction false} FirstBodies(pages: seq<Page>)
    ensures Bodies(pages)[..3] == [CatalogBody(), PagesBody(|pages|), FontBody()]
    ensures Bodies(pages)[0] == CatalogBody() && Bodies(pages)[1] == PagesBody(|pages|)
    ensures Bodies(pages)[2] == FontBody()
  {
    hide AllPages, CatalogBody, PagesBody, FontBody;
  }

  lemma {:induction false} BodiesOf(pages: seq<Page>, i: nat)
    requires i < |pages|
    ensures Bodies(pages)[PageId(i) - 1..PageId(i) + 2] == PageBodies(pages[i], i)
  {
    hide PageBodies, AllPages, CatalogBody, PagesBody, FontBody;
    PageOf(pages, |pages|, i);
    var first := [CatalogBody(), PagesBody(|pages|), FontBody()];
    assert (first + AllPages(pages, |pages|))[3 + 3 * i..3 + 3 * i + 3] == AllPages(pages, |pages|)[3 * i..3 * i + 3];
  }

  /** Read through the table, the content and image objects of page i give back its drawing and its image. */
  lemma {:induction false} EveryStreamIsRead(pages: seq<Page>, i: nat)
    requires Fits(Bodies(pages)) && i < |pages|
    ensures StreamOf(File(Bodies(pages)), PageId(i) + 1) == Some(Drawing(pages[i]))
    ensures StreamOf(File(Bodies(pages)), PageId(i) + 2) == Some(pages[i].stream)
  {
    hide StreamOf, File, Bodies, Drawing, ImageDict, StreamBody, PageBody, Fits;
    var bodies := Bodies(pages);
    BodiesOf(pages, i);
    var three := bodies[PageId(i) - 1..PageId(i) + 2];
    assert three[1] == bodies[PageId(i)] && three[2] == bodies[PageId(i) + 1];
    ImageDictCloses(pages[i]);
    StreamIsFound(bodies, PageId(i) + 1, "", Drawing(pages[i]));
    StreamIsFound(bodies, PageId(i) + 2, ImageDict(pages[i]), pages[i].stream);
  }

  lemma {:induction false} StreamAt(file: string, pos: nat, dict: string, data: string)
    requires NoClose(dict) && At(file, pos, StreamBody(dict, data) + EndObj())
    ensures ReadStream(file[pos..]) == Some(data)
  {
    hide ReadStream, StreamBody, NoClose, EndObj;
    var body := StreamBody(dict, data);
    var rest := EndObj() + file[pos + |body + EndObj()|..];
    assert file[pos..] == body + rest;
    StreamIsRead(dict, data, rest);
  }

  lemma {:induction false} ImageDictCloses(p: Page)
    ensures NoClose(ImageDict(p))
  {
    hide ImageKind, ImageCoding, Decimal;
    NumeralsDontClose(p.width);
    NumeralsDontClose(p.height);
  }
}
