/** From the trailer to the pixels: the references of the fixture's PDF lead to the pages, and each page's to its own
    drawing and image. */
module PdfPages {
  import opened Numerals
  import opened Options
  import opened Text
  import opened Whitespace
  import opened PdfFile
  import opened PdfLaws

  // ---- reading references ----

  /** The text from the first place where it stands. */
  function Behind(s: string, key: string): Option<string> {
    if |key| <= |s| && s[..|key|] == key then Some(s[|key|..])
    else if s == "" then None
    else Behind(s[1..], key)
  }

  /** The object number behind a key. */
  function RefBehind(s: string, key: string): Option<nat> {
    var rest := Behind(s, key);
    if rest.None? || LeadingDigits(rest.value) == 0 then None
    else Some(Read(rest.value[..LeadingDigits(rest.value)]))
  }

  /** Where a character first stands. */
  function Until(s: string, c: char): (k: nat)
    ensures k <= |s|
  {
    if s == "" || s[0] == c then 0 else 1 + Until(s[1..], c)
  }

  /** The object numbers of a list of references, `n 0 R` one after another. */
  function RefsIn(tokens: seq<string>): Option<seq<nat>> {
    if tokens == [] then Some([])
    else if |tokens| < 3 || !AllDigits(tokens[0]) || tokens[1] != "0" || tokens[2] != "R" then None
    else
      var more := RefsIn(tokens[3..]);
      if more.None? then None else Some([Read(tokens[0])] + more.value)
  }

  /** The pages that a pages object lists. */
  function KidsOf(s: string): Option<seq<nat>> {
    var rest := Behind(s, KidsKey());
    if rest.None? then None
    else
      var list := rest.value[..Until(rest.value, ']')];
      if list == "" then Some([]) else RefsIn(Split(list, ' '))
  }

  /** A key of an object, found through the table. */
  function RefOf(file: string, oid: nat, key: string): Option<nat> {
    var body := FindObject(file, oid);
    if body.Some? && body.value <= |file| then RefBehind(file[body.value..], key) else None
  }

  function PagesOf(file: string, oid: nat): Option<seq<nat>> {
    var body := FindObject(file, oid);
    if body.Some? && body.value <= |file| then KidsOf(file[body.value..]) else None
  }

  // ---- skipping what is not the key ----

  lemma {:induction false} NotHere(s: string, key: string)
    requires |key| >= 2 && s != "" && (s[0] != key[0] || |s| < 2 || s[1] != key[1])
    ensures !(|key| <= |s| && s[..|key|] == key)
  {
    assert |key| <= |s| ==> s[..|key|][0] == s[0] && s[..|key|][1] == s[1];
  }

  lemma {:induction false} Skip(front: string, rest: string, key: string)
    requires |key| >= 2 && key[0] == '/' && NoName(front, key[1])
    ensures Behind(front + rest, key) == Behind(rest, key)
  {
    if front == "" {
      assert front + rest == rest;
    } else {
      var s := front + rest;
      assert s[1..] == front[1..] + rest;
      assert forall k :: 0 <= k < |front| - 1 ==> front[1..][k] == front[k + 1];
      NotHere(s, key);
      Skip(front[1..], rest, key);
    }
  }

  lemma {:induction false} Found(key: string, rest: string)
    ensures Behind(key + rest, key) == Some(rest)
  {
    assert (key + rest)[..|key|] == key && (key + rest)[|key|..] == rest;
  }

  lemma {:induction false} NumberFound(n: nat, rest: string)
    requires rest == "" || !IsDigit(rest[0])
    ensures LeadingDigits(Decimal(n) + rest) == |Decimal(n)| > 0
    ensures Read((Decimal(n) + rest)[..|Decimal(n)|]) == n
  {
    hide Read, AllDigits, LeadingDigits;
    ReadDecimal(n);
    LeadingAt(Decimal(n), rest);
    assert (Decimal(n) + rest)[..|Decimal(n)|] == Decimal(n);
  }

  lemma {:induction false} RefFound(key: string, n: nat, rest: string)
    requires rest == "" || !IsDigit(rest[0])
    ensures RefBehind(key + Decimal(n) + rest, key) == Some(n)
  {
    hide Behind, Read, AllDigits, LeadingDigits, Decimal;
    assert key + Decimal(n) + rest == key + (Decimal(n) + rest);
    Found(key, Decimal(n) + rest);
    NumberFound(n, rest);
  }

  lemma {:induction false} RefSkips(front: string, rest: string, key: string)
    requires |key| >= 2 && key[0] == '/' && NoName(front, key[1])
    ensures RefBehind(front + rest, key) == RefBehind(rest, key)
  {
    hide Behind;
    Skip(front, rest, key);
  }

  lemma {:induction false} NoNames(a: string, b: string, letter: char)
    requires NoName(a, letter) && NoName(b, letter)
    ensures NoName(a + b, letter)
  {
  }

  lemma {:induction false} NumbersNameNothing(n: nat, letter: char)
    ensures NoName(Decimal(n), letter)
  {
    ReadDecimal(n);
  }

  // ---- a page ----

  /** A page's /Im0 and /Contents. */
  lemma {:induction false} PageRefs(i: nat, rest: string)
    ensures RefBehind(PageBody(i) + rest, ImageKey()) == Some(PageId(i) + 2)
    ensures RefBehind(PageBody(i) + rest, ContentsKey()) == Some(PageId(i) + 1)
  {
    Letters();
    hide PageHead, PageBox, PageImages, ImageKey, PageFonts, PageProcs, ContentsKey, RefBehind, NoName, Decimal;
    var image, contents := Decimal(PageId(i) + 2), Decimal(PageId(i) + 1);
    var front := PageHead() + PageBox() + PageImages();
    var after := PageFonts() + PageProcs() + ContentsKey() + contents + " 0 R >>" + rest;
    var end := " 0 R >>" + rest;
    assert PageBody(i) + rest == front + (ImageKey() + image + after);
    NoNames(PageHead(), PageBox(), 'I');
    NoNames(PageHead() + PageBox(), PageImages(), 'I');
    NoNames(PageHead(), PageBox(), 'C');
    NoNames(PageHead() + PageBox(), PageImages(), 'C');
    RefSkips(front, ImageKey() + image + after, ImageKey());
    assert after[0] == PageFonts()[0];
    RefFound(ImageKey(), PageId(i) + 2, after);
    var middle := front + ImageKey() + image + PageFonts() + PageProcs();
    assert PageBody(i) + rest == middle + (ContentsKey() + contents + end);
    NoNames(front, ImageKey(), 'C');
    NumbersNameNothing(PageId(i) + 2, 'C');
    NoNames(front + ImageKey(), image, 'C');
    NoNames(front + ImageKey() + image, PageFonts(), 'C');
    NoNames(front + ImageKey() + image + PageFonts(), PageProcs(), 'C');
    RefSkips(middle, ContentsKey() + contents + end, ContentsKey());
    RefFound(ContentsKey(), PageId(i) + 1, end);
  }

  lemma {:induction false} Letters()
    ensures |ImageKey()| >= 2 && ImageKey()[0] == '/' && ImageKey()[1] == 'I'
    ensures |ContentsKey()| >= 2 && ContentsKey()[0] == '/' && ContentsKey()[1] == 'C'
    ensures PageFonts() != "" && !IsDigit(PageFonts()[0])
  {
  }

  // ---- the list of pages ----

  /** The tokens of the references to the first n pages. */
  function Tokens(n: nat): seq<string> {
    if n == 0 then [] else Tokens(n - 1) + [Decimal(PageId(n - 1)), "0", "R"]
  }

  function PageIds(n: nat): (r: seq<nat>)
    ensures |r| == n && forall i :: 0 <= i < n ==> r[i] == PageId(i)
  {
    if n == 0 then [] else PageIds(n - 1) + [PageId(n - 1)]
  }

  lemma {:induction false} KidsAreTokens(n: nat)
    requires n > 0
    ensures Join(Kids(n), ' ') == Join(Tokens(n), ' ') && |Kids(n)| == n && |Tokens(n)| == 3 * n
  {
    hide Decimal, Join;
    var d := Decimal(PageId(n - 1));
    var three := [d, "0", "R"];
    Three(d);
    if n > 1 {
      KidsAreTokens(n - 1);
      JoinAdds(Kids(n - 1), [d + " 0 R"]);
      JoinOne(d + " 0 R");
      JoinAdds(Tokens(n - 1), three);
    } else {
      assert Kids(1) == [d + " 0 R"] && Tokens(1) == three;
      JoinOne(d + " 0 R");
    }
  }

  lemma {:induction false} Three(d: string)
    ensures Join([d, "0", "R"], ' ') == d + " 0 R"
  {
    assert [d, "0", "R"][1..] == ["0", "R"] && ["0", "R"][1..] == ["R"];
  }

  lemma {:induction false} TokensAreClean(n: nat)
    ensures forall j :: 0 <= j < |Tokens(n)| ==> ' ' !in Tokens(n)[j] && ']' !in Tokens(n)[j] && Tokens(n)[j] != ""
  {
    if n > 0 {
      TokensAreClean(n - 1);
      ReadDecimal(PageId(n - 1));
      hide Decimal;
      DigitsOnly(Decimal(PageId(n - 1)));
    }
  }

  lemma {:induction false} DigitsOnly(s: string)
    requires AllDigits(s)
    ensures ' ' !in s && ']' !in s
  {
  }

  lemma {:induction false} OneRef(d: string)
    requires AllDigits(d)
    ensures RefsIn([d, "0", "R"]) == Some([Read(d)])
  {
    hide Read;
    assert [d, "0", "R"][3..] == [];
    assert RefsIn([]) == Some([]);
    assert [Read(d)] + [] == [Read(d)];
  }

  lemma {:induction false} RefsMore(tokens: seq<string>, n: nat)
    requires RefsIn(tokens).Some?
    ensures RefsIn(tokens + [Decimal(n), "0", "R"]) == Some(RefsIn(tokens).value + [n])
    decreases |tokens|
  {
    hide Decimal, Read;
    ReadDecimal(n);
    var more := tokens + [Decimal(n), "0", "R"];
    if tokens == [] {
      assert more == [Decimal(n), "0", "R"];
      OneRef(Decimal(n));
      var none := RefsIn(tokens).value;
      assert none == [] && none + [n] == [n];
    } else {
      assert more[3..] == tokens[3..] + [Decimal(n), "0", "R"];
      assert more[0] == tokens[0] && more[1] == tokens[1] && more[2] == tokens[2];
      RefsMore(tokens[3..], n);
      var first, rest := [Read(tokens[0])], RefsIn(tokens[3..]).value;
      assert first + (rest + [n]) == first + rest + [n];
    }
  }

  lemma {:induction false} TokensAreRefs(n: nat)
    ensures RefsIn(Tokens(n)) == Some(PageIds(n))
  {
    if n > 0 {
      TokensAreRefs(n - 1);
      RefsMore(Tokens(n - 1), PageId(n - 1));
    }
  }

  lemma {:induction false} UntilAt(front: string, c: char, rest: string)
    requires c !in front
    ensures Until(front + [c] + rest, c) == |front|
  {
    if front == "" {
      assert front + [c] + rest == [c] + rest;
    } else {
      assert (front + [c] + rest)[1..] == front[1..] + [c] + rest;
      assert forall x :: x in front[1..] ==> x in front;
      UntilAt(front[1..], c, rest);
    }
  }

  lemma {:induction false} JoinAvoids(parts: seq<string>, c: char)
    requires c != ' ' && forall j :: 0 <= j < |parts| ==> c !in parts[j]
    ensures c !in Join(parts, ' ')
  {
    if |parts| > 1 { JoinAvoids(parts[1..], c); }
  }

  /** What the pages object lists. */
  lemma {:induction false} KidsAreRead(n: nat, rest: string)
    ensures KidsOf(PagesBody(n) + rest) == Some(PageIds(n))
  {
    KidsLetters();
    hide KidsKey, Join, RefsIn, Decimal, Until, Behind, Split;
    var list := Join(Kids(n), ' ');
    var tail := " /Count " + Decimal(n) + " >>" + rest;
    assert PagesBody(n) + rest == "<< /Type /Pages " + (KidsKey() + (list + [']'] + tail));
    Skip("<< /Type /Pages ", KidsKey() + (list + [']'] + tail), KidsKey());
    Found(KidsKey(), list + [']'] + tail);
    TokensAreClean(n);
    ListIsTokens(n);
    JoinAvoids(Tokens(n), ']');
    UntilAt(list, ']', tail);
    assert (list + [']'] + tail)[..|list|] == list;
    TokensAreRefs(n);
    if n > 0 {
      KidsAreTokens(n);
      SplitJoin(Tokens(n), ' ');
      FirstToken(Tokens(n));
    } else {
      NoKids();
    }
  }

  lemma {:induction false} ListIsTokens(n: nat)
    ensures Join(Kids(n), ' ') == Join(Tokens(n), ' ')
  {
    if n > 0 { KidsAreTokens(n); }
  }

  lemma {:induction false} FirstToken(tokens: seq<string>)
    requires tokens != [] && tokens[0] != ""
    ensures Join(tokens, ' ') != ""
  {
  }

  lemma {:induction false} NoKids()
    ensures Join(Kids(0), ' ') == "" && PageIds(0) == []
  {
  }

  lemma {:induction false} KidsLetters()
    ensures |KidsKey()| >= 2 && KidsKey()[0] == '/' && KidsKey()[1] == 'K'
    ensures NoName("<< /Type /Pages ", 'K')
  {
  }

  // ---- the catalog and the trailer ----

  lemma {:induction false} CatalogIsRead(rest: string)
    ensures RefBehind(CatalogBody() + rest, PagesKey()) == Some(2)
  {
    CatalogLetters();
    hide PagesKey, RefBehind;
    assert CatalogBody() + rest == "<< /Type /Catalog " + (PagesKey() + Decimal(2) + (" 0 R >>" + rest));
    RefSkips("<< /Type /Catalog ", PagesKey() + Decimal(2) + (" 0 R >>" + rest), PagesKey());
    RefFound(PagesKey(), 2, " 0 R >>" + rest);
  }

  lemma {:induction false} CatalogLetters()
    ensures |PagesKey()| >= 2 && PagesKey()[0] == '/' && PagesKey()[1] == 'P'
    ensures NoName("<< /Type /Catalog ", 'P') && Decimal(2) == "2"
  {
  }

  /** The catalog the trailer, which follows the table, names. */
  function RootOf(file: string): Option<nat> {
    var x := StartXref(file);
    if x.None? then None
    else
      var section := Section(file, x.value);
      if section.None? || section.value.1 + 20 * section.value.0 > |file| then None
      else RefBehind(file[section.value.1 + 20 * section.value.0..], "/Root ")
  }

  lemma {:induction false} TrailerIsRead(bodies: seq<string>, rest: string)
    ensures RefBehind(TrailerDict(bodies) + rest, "/Root ") == Some(1)
  {
    TrailerLetters();
    hide RefBehind, NoName, Decimal;
    var size, front := Decimal(|bodies| + 1), "trailer\n<< /Size ";
    var end := " 0 R >>\n" + rest;
    assert Decimal(1) == "1" by { OneIsOne(); }
    assert TrailerDict(bodies) + rest == (front + size + " ") + ("/Root " + Decimal(1) + end);
    NumbersNameNothing(|bodies| + 1, 'R');
    NoNames(front, size, 'R');
    NoNames(front + size, " ", 'R');
    RefSkips(front + size + " ", "/Root " + Decimal(1) + end, "/Root ");
    RefFound("/Root ", 1, end);
  }

  lemma {:induction false} OneIsOne()
    ensures Decimal(1) == "1"
  {
  }

  lemma {:induction false} TrailerLetters()
    ensures NoName("trailer\n<< /Size ", 'R') && NoName(" ", 'R')
  {
  }

  lemma {:induction false} BehindFront(front: string, rest: string)
    ensures (front + rest)[|front|..] == rest
  {
  }

  lemma {:induction false} TableStarts(bodies: seq<string>)
    ensures |Upto(bodies, |bodies|)| == XrefAt(bodies)
  {
  }

  lemma {:induction false} ClosingParts(bodies: seq<string>, rest: string)
    requires rest == StartKey() + Decimal(XrefAt(bodies)) + Eof()
    ensures Closing(bodies) == TrailerDict(bodies) + rest
  {
    hide TrailerDict, StartKey, Decimal, XrefAt, Eof;
  }

  lemma {:induction false} RootIsRead(bodies: seq<string>)
    requires Fits(bodies)
    ensures RootOf(File(bodies)) == Some(1)
  {
    hide Upto, Table, File, Fits, XrefAt, Section, StartXref, RefBehind, TrailerDict;
    var file := File(bodies);
    FileParts(bodies);
    StartIsRead(bodies);
    SectionIsRead(file, XrefAt(bodies), |bodies| + 1);
    TableLength(bodies, |bodies|);
    var from := TableAt(bodies) + 20 * (|bodies| + 1);
    hide XrefHead;
    var front := Upto(bodies, |bodies|) + (XrefHead(bodies) + Table(bodies, |bodies|));
    assert |Upto(bodies, |bodies|)| == XrefAt(bodies) by { TableStarts(bodies); }
    assert from == |front|;
    BehindFront(front, Closing(bodies));
    var rest := StartKey() + Decimal(XrefAt(bodies)) + Eof();
    assert Closing(bodies) == TrailerDict(bodies) + rest by { ClosingParts(bodies, rest); }
    TrailerIsRead(bodies, rest);
  }

  // ---- an image ----

  lemma {:induction false} ImageLetters()
    ensures |WidthKey()| >= 2 && WidthKey()[0] == '/' && WidthKey()[1] == 'W'
    ensures |HeightKey()| >= 2 && HeightKey()[0] == '/' && HeightKey()[1] == 'H'
    ensures NoName("<< ", 'W') && NoName("<< ", 'H') && NoName(" ", 'H') && NoName(WidthKey(), 'H')
    ensures NoName(ImageKind(), 'W') && NoName(ImageKind(), 'H')
    ensures ImageCoding() != "" && ImageCoding()[0] == ' '
  {
  }

  /** The width, then the height, then what else there is. */
  lemma {:induction false} SizesAreRead(front: string, w: nat, h: nat, end: string)
    requires NoName(front, 'W') && NoName(front, 'H') && end != "" && !IsDigit(end[0])
    ensures var s := front + WidthKey() + Decimal(w) + " " + HeightKey() + Decimal(h) + end;
            RefBehind(s, WidthKey()) == Some(w) && RefBehind(s, HeightKey()) == Some(h)
  {
    ImageLetters();
    hide WidthKey, HeightKey, RefBehind, NoName, Decimal;
    var width := WidthKey() + Decimal(w);
    var height := HeightKey() + Decimal(h);
    var s := front + WidthKey() + Decimal(w) + " " + HeightKey() + Decimal(h) + end;
    assert s == front + (width + (" " + height + end));
    RefSkips(front, width + (" " + height + end), WidthKey());
    RefFound(WidthKey(), w, " " + height + end);
    assert s == (front + width + " ") + (height + end);
    NumbersNameNothing(w, 'H');
    NoNames(WidthKey(), Decimal(w), 'H');
    NoNames(front, width, 'H');
    NoNames(front + width, " ", 'H');
    RefSkips(front + width + " ", height + end, HeightKey());
    RefFound(HeightKey(), h, end);
  }

  lemma {:induction false} ImageIsSized(p: Page, rest: string)
    ensures RefBehind(StreamBody(ImageDict(p), p.stream) + rest, WidthKey()) == Some(p.width)
    ensures RefBehind(StreamBody(ImageDict(p), p.stream) + rest, HeightKey()) == Some(p.height)
  {
    ImageLetters();
    hide ImageKind, ImageCoding, WidthKey, HeightKey, RefBehind, NoName, Decimal;
    var front := "<< " + ImageKind();
    var end := ImageCoding() + ("/Length " + Decimal(|p.stream|) + " >>\nstream\n" + p.stream + "\nendstream" + rest);
    assert StreamBody(ImageDict(p), p.stream) + rest
           == front + WidthKey() + Decimal(p.width) + " " + HeightKey() + Decimal(p.height) + end;
    NoNames("<< ", ImageKind(), 'W');
    NoNames("<< ", ImageKind(), 'H');
    SizesAreRead(front, p.width, p.height, end);
  }

  lemma {:induction false} SplitFront(piece: string, rest: string)
    requires ' ' !in piece
    ensures Split(piece + " " + rest, ' ') == [piece] + Split(rest, ' ')
  {
    if piece == "" {
      assert piece + " " + rest == " " + rest;
      assert (" " + rest)[1..] == rest;
    } else {
      var s := piece + " " + rest;
      assert s[1..] == piece[1..] + " " + rest && s[0] == piece[0];
      assert forall c :: c in piece[1..] ==> c in piece;
      SplitFront(piece[1..], rest);
      assert [piece[0]] + piece[1..] == piece;
    }
  }

  /** The drawing scales the unit square to the image's width and height, puts it 36 points in and 80 up, and ends with
      the caption. */
  lemma {:induction false} DrawingScales(p: Page)
    ensures var words := Split(Drawing(p), ' ');
            |words| > 8 && words[..8] == ["q", Decimal(p.width), "0", "0", Decimal(p.height), "36", "80", "cm"]
    ensures EndsWith(Drawing(p), "(" + p.caption + ") Tj ET")
  {
    hide Decimal, Split;
    ReadDecimal(p.width);
    ReadDecimal(p.height);
    DigitsOnly(Decimal(p.width));
    DigitsOnly(Decimal(p.height));
    var rest := "/Im0 Do Q\n" + "BT /F1 13 Tf 36 28 Td (" + p.caption + ") Tj ET";
    var r7 := "cm" + " " + rest;
    var r6 := "80" + " " + r7;
    var r5 := "36" + " " + r6;
    var r4 := Decimal(p.height) + " " + r5;
    var r3 := "0" + " " + r4;
    var r2 := "0" + " " + r3;
    var r1 := Decimal(p.width) + " " + r2;
    assert Drawing(p) == "q" + " " + r1 by { DrawingParts(p, r1); }
    CaptionLast(p);
    SplitFront("q", r1);
    SplitFront(Decimal(p.width), r2);
    SplitFront("0", r3);
    SplitFront("0", r4);
    SplitFront(Decimal(p.height), r5);
    SplitFront("36", r6);
    SplitFront("80", r7);
    SplitFront("cm", rest);
    var words := Split(Drawing(p), ' ');
    assert words == ["q", Decimal(p.width), "0", "0", Decimal(p.height), "36", "80", "cm"] + Split(rest, ' ');
  }

  lemma {:induction false} CaptionLast(p: Page)
    ensures EndsWith(Drawing(p), "(" + p.caption + ") Tj ET")
  {
    hide Decimal;
    var front := "q " + Decimal(p.width) + " 0 0 " + Decimal(p.height) + " 36 80 cm /Im0 Do Q\n"
                 + "BT /F1 13 Tf 36 28 Td ";
    var last := "(" + p.caption + ") Tj ET";
    assert Drawing(p) == front + last;
    BehindFront(front, last);
  }

  lemma {:induction false} DrawingParts(p: Page, r1: string)
    requires r1 == Decimal(p.width) + " " + ("0" + " " + ("0" + " " + (Decimal(p.height) + " " + ("36" + " "
                   + ("80" + " " + ("cm" + " "
                   + ("/Im0 Do Q\n" + "BT /F1 13 Tf 36 28 Td (" + p.caption + ") Tj ET")))))))
    ensures Drawing(p) == "q" + " " + r1
  {
    hide Decimal;
  }

  // ---- through the file ----

  lemma {:induction false} TextFound(bodies: seq<string>, oid: nat) returns (pos: nat, rest: string)
    requires Fits(bodies) && 1 <= oid <= |bodies|
    ensures FindObject(File(bodies), oid) == Some(pos) && pos <= |File(bodies)|
    ensures File(bodies)[pos..] == bodies[oid - 1] + rest
  {
    hide FindObject, File, Offset, ObjHead, EndObj, Fits;
    EveryObjectIsFound(bodies, oid);
    pos := Offset(bodies, oid) + |ObjHead(oid)|;
    var text, file := bodies[oid - 1] + EndObj(), File(bodies);
    rest := EndObj() + file[pos + |text|..];
    assert file[pos..] == file[pos..pos + |text|] + file[pos + |text|..];
  }

  lemma {:induction false} BodyIs(pages: seq<Page>, i: nat)
    requires i < |pages|
    ensures Bodies(pages)[PageId(i) - 1] == PageBody(i)
    ensures Bodies(pages)[PageId(i) + 1] == StreamBody(ImageDict(pages[i]), pages[i].stream)
  {
    hide PageBody, CatalogBody, PagesBody, FontBody, StreamBody, ImageDict, Drawing, AllPages;
    BodiesOf(pages, i);
    var three := Bodies(pages)[PageId(i) - 1..PageId(i) + 2];
    assert three[0] == Bodies(pages)[PageId(i) - 1] && three[2] == Bodies(pages)[PageId(i) + 1];
  }

  /** The trailer's root is the catalog, its pages object lists the pages in order, whatever their number. */
  lemma {:induction false} PagesAreListed(pages: seq<Page>)
    requires Fits(Bodies(pages))
    ensures var file := File(Bodies(pages));
            RootOf(file) == Some(1) && RefOf(file, 1, PagesKey()) == Some(2)
            && PagesOf(file, 2) == Some(PageIds(|pages|))
  {
    hide File, Bodies, Fits, FindObject, RootOf, RefBehind, KidsOf, CatalogBody, PagesBody, PagesKey;
    FirstBodies(pages);
    var bodies := Bodies(pages);
    RootIsRead(bodies);
    var at, rest := TextFound(bodies, 1);
    CatalogIsRead(rest);
    at, rest := TextFound(bodies, 2);
    KidsAreRead(|pages|, rest);
  }

  /** Page i, found as the i-th of the list, names a content stream that is its drawing and an image stream that is its
      image, of its width and height. */
  lemma {:induction false} PageLeadsToItsStreams(pages: seq<Page>, i: nat)
    requires Fits(Bodies(pages)) && i < |pages|
    ensures var file, page := File(Bodies(pages)), PageIds(|pages|)[i];
            var contents, image := RefOf(file, page, ContentsKey()), RefOf(file, page, ImageKey());
            contents.Some? && StreamOf(file, contents.value) == Some(Drawing(pages[i]))
            && image.Some? && StreamOf(file, image.value) == Some(pages[i].stream)
            && RefOf(file, image.value, WidthKey()) == Some(pages[i].width)
            && RefOf(file, image.value, HeightKey()) == Some(pages[i].height)
  {
    hide File, Bodies, Fits, FindObject, RefBehind, PageBody, StreamBody, ImageDict, Drawing, StreamOf, ContentsKey,
         ImageKey, WidthKey, HeightKey, CatalogBody, PagesBody;
    var bodies := Bodies(pages);
    BodyIs(pages, i);
    var at, rest := TextFound(bodies, PageId(i));
    PageRefs(i, rest);
    EveryStreamIsRead(pages, i);
    at, rest := TextFound(bodies, PageId(i) + 2);
    ImageIsSized(pages[i], rest);
  }
}
