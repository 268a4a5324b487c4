/** The append-only writer: each object is put at the end of the bytes, and its offset noted. */
module PdfWriter {
  import opened Numerals
  import opened PdfFile
  import opened PdfLaws

  /** The ids 1 to k in order. */
  function Ids(k: nat): seq<nat> {
    if k == 0 then [] else Ids(k - 1) + [k]
  }

  class Writer {
    var out: string
    var offsets: map<nat, nat>
    ghost var written: seq<nat>

    constructor ()
      ensures out == Header() && offsets == map[] && written == []
    {
      out, offsets, written := Header(), map[], [];
    }

    method Put(oid: nat, body: string)
      modifies this
      ensures out == old(out) + Object(oid, body)
      ensures offsets == old(offsets)[oid := |old(out)|]
      ensures written == old(written) + [oid]
    {
      offsets := offsets[oid := |out|];
      out := out + ObjHead(oid);
      out := out + body;
      out := out + EndObj();
      written := written + [oid];
      assert out == old(out) + (ObjHead(oid) + body + EndObj());
    }

    /** The objects 1 to k are out, each once, in order, and their offsets are noted. */
    ghost predicate Holds(bodies: seq<string>, k: nat)
      requires k <= |bodies|
      reads this
    {
      out == Upto(bodies, k) && written == Ids(k)
      && (forall oid :: oid in offsets <==> 1 <= oid <= k)
      && (forall oid :: 1 <= oid <= k ==> offsets[oid] == Offset(bodies, oid))
    }

    method PutNext(ghost bodies: seq<string>, oid: nat, body: string)
      requires 1 <= oid <= |bodies| && Holds(bodies, oid - 1) && body == bodies[oid - 1]
      modifies this
      ensures Holds(bodies, oid)
    {
      hide Object;
      Put(oid, body);
    }

    method PutPage(pages: seq<Page>, i: nat, ghost bodies: seq<string>)
      requires i < |pages| && bodies == Bodies(pages) && Holds(bodies, 3 + 3 * i)
      modifies this
      ensures Holds(bodies, 6 + 3 * i)
    {
      hide Bodies, Holds, Drawing, ImageDict, StreamBody, PageBody;
      var pid := PageId(i);
      var content := Drawing(pages[i]);
      BodiesOf(pages, i);
      ghost var three := bodies[3 + 3 * i..6 + 3 * i];
      assert three[0] == bodies[pid - 1] && three[1] == bodies[pid] && three[2] == bodies[pid + 1];
      PutNext(bodies, pid, PageBody(i));
      PutNext(bodies, pid + 1, StreamBody("", content));
      PutNext(bodies, pid + 2, StreamBody(ImageDict(pages[i]), pages[i].stream));
    }

    method PutTable(ghost bodies: seq<string>, count: nat)
      requires count == |bodies| && Holds(bodies, count)
      modifies this`out
      ensures out == old(out) + XrefHead(bodies) + Table(bodies, count) && written == old(written)
    {
      hide Upto, Decimal, Padded, FreeHead, InUse;
      out := out + ("xref\n0 " + Decimal(count + 1) + "\n");
      out := out + FreeHead();
      for oid := 1 to count + 1
        invariant out == old(out) + XrefHead(bodies) + Table(bodies, oid - 1)
      {
        out := out + (Padded(offsets[oid], 10) + InUse());
        assert Table(bodies, oid) == Table(bodies, oid - 1) + Padded(Offset(bodies, oid), 10) + InUse();
      }
    }

    method PutObjects(pages: seq<Page>)
      requires out == Header() && offsets == map[] && written == []
      modifies this
      ensures Holds(Bodies(pages), 3 + 3 * |pages|)
    {
      hide Header, Bodies, PageBodies, Holds, CatalogBody, PagesBody, FontBody;
      ghost var bodies := Bodies(pages);
      NoneYet(this, bodies);
      FirstBodies(pages);
      PutNext(bodies, 1, CatalogBody());
      PutNext(bodies, 2, PagesBody(|pages|));
      PutNext(bodies, 3, FontBody());
      for i := 0 to |pages|
        invariant Holds(bodies, 3 + 3 * i)
      {
        PutPage(pages, i, bodies);
      }
    }

    /** `build_pdf`: the whole file; every id of 1..3+3n is written exactly once. */
    method Build(pages: seq<Page>) returns (file: string)
      requires out == Header() && offsets == map[] && written == []
      modifies this
      ensures file == File(Bodies(pages)) && written == Ids(3 + 3 * |pages|)
    {
      hide Bodies, Holds, Header, Upto, Table, XrefHead, StartKey, Eof, Decimal;
      ghost var bodies := Bodies(pages);
      var count := 3 + 3 * |pages|;
      PutObjects(pages);
      Done(this, bodies);
      var xrefAt := |out|;
      PutTable(bodies, count);
      out := out + ("trailer\n<< /Size " + Decimal(count + 1) + " /Root 1 0 R >>\n");
      out := ((out + StartKey()) + Decimal(xrefAt)) + Eof();
      file := out;
    }
  }

  lemma {:induction false} NoneYet(w: Writer, bodies: seq<string>)
    requires w.out == Header() && w.offsets == map[] && w.written == []
    ensures w.Holds(bodies, 0)
  {
  }

  lemma {:induction false} Done(w: Writer, bodies: seq<string>)
    requires w.Holds(bodies, |bodies|)
    ensures w.out == Upto(bodies, |bodies|) && w.written == Ids(|bodies|) && |w.out| == XrefAt(bodies)
  {
  }
}
