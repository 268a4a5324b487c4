/** The fixture's PDF file, as bytes held in a string, and a reader of its cross-reference table and streams
    (ISO 32000-1, sections 7.3.8 and 7.5.4). */
module PdfFile {
  import opened Numerals
  import opened Options
  import opened Text

  /** One page: its compressed image, the image's size in pixels, and the caption's bytes. */
  datatype Page = Page(stream: string, width: nat, height: nat, caption: string)

  // ---- the file ----

  function Header(): string { "%PDF-1.4\n%\U{E2}\U{E3}\U{CF}\U{D3}\n" }

  function PageId(i: nat): nat { 4 + 3 * i }

  function Kids(n: nat): seq<string> {
    if n == 0 then [] else Kids(n - 1) + [Decimal(PageId(n - 1)) + " 0 R"]
  }

  function Drawing(p: Page): string {
    "q " + Decimal(p.width) + " 0 0 " + Decimal(p.height) + " 36 80 cm /Im0 Do Q\n"
    + "BT /F1 13 Tf 36 28 Td (" + p.caption + ") Tj ET"
  }

  /** A stream object: a dictionary whose last entry is the stream's length, then the bytes between their markers. */
  function StreamBody(dict: string, data: string): string {
    "<< " + dict + "/Length " + Decimal(|data|) + " >>\nstream\n" + data + "\nendstream"
  }

  function ImageKind(): (r: string)
    ensures '>' !in r
  {
    "/Type /XObject /Subtype /Image "
  }

  function ImageCoding(): (r: string)
    ensures '>' !in r
  {
    " /ColorSpace /DeviceRGB" + " /BitsPerComponent 8" + " /Filter /FlateDecode "
  }

  function ImageDict(p: Page): string {
    ImageKind() + WidthKey() + Decimal(p.width) + " " + HeightKey() + Decimal(p.height) + ImageCoding()
  }

  function WidthKey(): string { "/Width " }

  function HeightKey(): string { "/Height " }

  /** A text without a name that starts with the letter. */
  predicate NoName(s: string, letter: char) {
    forall k :: 0 <= k < |s| && s[k] == '/' ==> k + 1 < |s| && s[k + 1] != letter
  }

  function PageHead(): (r: string)
    ensures NoName(r, 'C') && NoName(r, 'I')
  {
    "<< /Type /Page /Parent 2 0 R "
  }

  function PageBox(): (r: string)
    ensures NoName(r, 'C') && NoName(r, 'I')
  {
    "/MediaBox [0 0 972 680] "
  }

  function PageImages(): (r: string)
    ensures NoName(r, 'C') && NoName(r, 'I')
  {
    "/Resources << /XObject << "
  }

  function ImageKey(): (r: string)
    ensures NoName(r, 'C')
  {
    "/Im0 "
  }

  function PageFonts(): (r: string)
    ensures NoName(r, 'C')
  {
    " 0 R >> /Font << /F1 3 0 R >> "
  }

  function PageProcs(): (r: string)
    ensures NoName(r, 'C')
  {
    "/ProcSet [/PDF /Text /ImageC] >> "
  }

  function ContentsKey(): string { "/Contents " }

  function PageBody(i: nat): string {
    PageHead() + PageBox() + PageImages() + ImageKey() + Decimal(PageId(i) + 2) + PageFonts() + PageProcs()
    + ContentsKey() + Decimal(PageId(i) + 1) + " 0 R >>"
  }

  function CatalogBody(): string { "<< /Type /Catalog " + PagesKey() + "2 0 R >>" }

  function PagesKey(): string { "/Pages " }

  function KidsKey(): string { "/Kids [" }

  function PagesBody(n: nat): string {
    "<< /Type /Pages " + KidsKey() + Join(Kids(n), ' ') + "] /Count " + Decimal(n) + " >>"
  }

  function FontBody(): string { "<< /Type /Font /Subtype /Type1 /BaseFont /Helvetica >>" }

  /** The bodies of one page's three objects: the page, its drawing and its image. */
  function PageBodies(p: Page, i: nat): seq<string> {
    [PageBody(i), StreamBody("", Drawing(p)), StreamBody(ImageDict(p), p.stream)]
  }

  function AllPages(pages: seq<Page>, n: nat): (r: seq<string>)
    requires n <= |pages|
    ensures |r| == 3 * n
  {
    if n == 0 then [] else AllPages(pages, n - 1) + PageBodies(pages[n - 1], n - 1)
  }

  /** What the objects hold, in the order of their ids, which start at 1. */
  function Bodies(pages: seq<Page>): (r: seq<string>)
    ensures |r| == 3 + 3 * |pages|
  {
    [CatalogBody(), PagesBody(|pages|), FontBody()] + AllPages(pages, |pages|)
  }

  function ObjHead(oid: nat): string { Decimal(oid) + " 0 obj\n" }

  function EndObj(): string { "\nendobj\n" }

  function Object(oid: nat, body: string): string { ObjHead(oid) + body + EndObj() }

  /** The header and the objects 1 to k. */
  function Upto(bodies: seq<string>, k: nat): string
    requires k <= |bodies|
  {
    if k == 0 then Header() else Upto(bodies, k - 1) + Object(k, bodies[k - 1])
  }

  function Offset(bodies: seq<string>, oid: nat): nat
    requires 1 <= oid <= |bodies|
  {
    |Upto(bodies, oid - 1)|
  }

  function XrefAt(bodies: seq<string>): nat { |Upto(bodies, |bodies|)| }

  function InUse(): string { " 00000 n \n" }

  function FreeHead(): string { "0000000000 65535 f \n" }

  /** The entries of the table up to object k; the first heads the list of free objects. */
  function Table(bodies: seq<string>, k: nat): string
    requires k <= |bodies|
  {
    if k == 0 then FreeHead() else Table(bodies, k - 1) + Padded(Offset(bodies, k), 10) + InUse()
  }

  function XrefHead(bodies: seq<string>): string { "xref\n0 " + Decimal(|bodies| + 1) + "\n" }

  function StartKey(): string { "startxref\n" }

  function Eof(): string { "\n%%EOF\n" }

  function TrailerDict(bodies: seq<string>): string {
    "trailer\n<< /Size " + Decimal(|bodies| + 1) + " /Root 1 0 R >>\n"
  }

  function File(bodies: seq<string>): string {
    Upto(bodies, |bodies|) + XrefHead(bodies) + Table(bodies, |bodies|)
    + TrailerDict(bodies) + StartKey() + Decimal(XrefAt(bodies)) + Eof()
  }

  // ---- the reader ----

  predicate At(s: string, pos: nat, piece: string) {
    pos + |piece| <= |s| && s[pos..pos + |piece|] == piece
  }

  predicate EndsWith(s: string, piece: string) {
    |piece| <= |s| && s[|s| - |piece|..] == piece
  }

  function TrailingDigits(s: string): (k: nat)
    ensures k <= |s| && AllDigits(s[|s| - k..])
  {
    if s == "" || !IsDigit(s[|s| - 1]) then 0
    else
      var k := TrailingDigits(s[..|s| - 1]);
      assert s[|s| - k - 1..] == s[..|s| - 1][|s| - 1 - k..] + [s[|s| - 1]];
      k + 1
  }

  function LeadingDigits(s: string): (k: nat)
    ensures k <= |s| && AllDigits(s[..k])
  {
    if s == "" || !IsDigit(s[0]) then 0
    else
      var k := LeadingDigits(s[1..]);
      assert s[..k + 1] == [s[0]] + s[1..][..k];
      k + 1
  }

  /** The number the text ends with, when the key stands before it. */
  function NumberAfter(s: string, key: string): Option<nat> {
    var k := TrailingDigits(s);
    if k > 0 && EndsWith(s[..|s| - k], key) then Some(Read(s[|s| - k..])) else None
  }

  /** Where the file says its cross-reference table is. */
  function StartXref(file: string): Option<nat> {
    if EndsWith(file, Eof()) then NumberAfter(file[..|file| - |Eof()|], StartKey()) else None
  }

  /** How many entries the table's one section has, and where they start. */
  function Section(file: string, x: nat): Option<(nat, nat)> {
    if !At(file, x, "xref\n0 ") then None
    else
      var k := LeadingDigits(file[x + 7..]);
      if At(file, x + 7 + k, "\n") then Some((Read(file[x + 7..][..k]), x + 7 + k + 1)) else None
  }

  /** The offset in the 20-byte entry at position e, if the entry is in use. */
  function EntryOffset(file: string, e: nat): Option<nat> {
    if e + 20 <= |file| && AllDigits(file[e..e + 10]) && file[e + 10..e + 20] == InUse()
    then Some(Read(file[e..e + 10])) else None
  }

  /** Where the body of object `oid` starts, found through the table. */
  function FindObject(file: string, oid: nat): Option<nat> {
    var x := StartXref(file);
    if x.None? then None
    else
      var section := Section(file, x.value);
      if section.None? || oid >= section.value.0 then None
      else
        var offset := EntryOffset(file, section.value.1 + 20 * oid);
        if offset.Some? && At(file, offset.value, ObjHead(oid)) then Some(offset.value + |ObjHead(oid)|) else None
  }

  /** Where the dictionary at the start of the text closes. */
  function DictEnd(s: string): (k: nat)
    ensures k <= |s|
  {
    if s == "" || s[0] == '>' then 0 else 1 + DictEnd(s[1..])
  }

  function StreamKey(): string { ">>\nstream\n" }

  function EndStream(): string { "\nendstream" }

  /** The number the dictionary ends with, when its last key is `/Length`. */
  function LengthOf(s: string): Option<nat> {
    var k := DictEnd(s);
    if EndsWith(s[..k], " ") then NumberAfter(s[..k - 1], "/Length ") else None
  }

  /** The bytes between the markers, as many as `/Length` says, if the end marker follows them. */
  function ReadStream(s: string): Option<string> {
    var from, length := DictEnd(s) + |StreamKey()|, LengthOf(s);
    if length.Some? && At(s, DictEnd(s), StreamKey()) && from + length.value <= |s|
       && At(s, from + length.value, EndStream())
    then Some(s[from..from + length.value]) else None
  }
}
