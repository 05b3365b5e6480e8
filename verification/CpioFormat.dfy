/** The "newc" archive layout of the Linux initramfs buffer format: a writer for lists of records,
    an independent reader, and the round trip between them. */
module CpioFormat {
  import opened Bytes
  import opened Hexadecimal

  /** One archive member.  All other header fields are constants in this program. */
  datatype Record = Record(ino: nat, mode: nat, name: seq<byte>, data: seq<byte>)

  const WORD: nat := 0x1_0000_0000
  const HEADER: nat := 110
  const MAGIC: seq<byte> := [48, 55, 48, 55, 48, 49]               // 070701
  const TRAILER: seq<byte> := [84, 82, 65, 73, 76, 69, 82, 33, 33, 33] // TRAILER!!!

  /** Fits the 32-bit header fields and the C string of the name. */
  ghost predicate Printable(r: Record)
  {
    r.ino < WORD && r.mode < WORD && |r.data| < WORD && |r.name| + 1 < WORD && 0 !in r.name
  }

  lemma Pow16Eight()
    ensures Pow16(8) == WORD
  {
    assert Pow16(1) == 16 && Pow16(2) == 256 && Pow16(3) == 4096 && Pow16(4) == 65536;
    assert Pow16(5) == 16 * 65536 && Pow16(6) == 256 * 65536;
  }

  /** %08x of an unsigned int. */
  function Hex8(n: nat): (s: seq<byte>)
    ensures |s| == 8
  {
    Pow16Eight();
    Hex(n % WORD, 8)
  }

  /** Zeros up to the next multiple of four. */
  function Gap(n: nat): (g: nat)
    ensures (n + g) % 4 == 0 && g < 4
  {
    (4 - n % 4) % 4
  }

  function Zeros(n: nat): (s: seq<byte>)
    ensures |s| == n
  {
    seq(n, _ => 0)
  }

  function Fields(vals: seq<nat>): (s: seq<byte>)
    ensures |s| == 8 * |vals|
  {
    if vals == [] then [] else Hex8(vals[0]) + Fields(vals[1..])
  }

  /** The header that _eject prints. */
  function Header(r: Record): (s: seq<byte>)
    ensures |s| == HEADER
  {
    MAGIC + Fields([r.ino, r.mode, 0, 0, 1, 0, |r.data|, 0, 0, 0, 0, |r.name| + 1, 0])
  }

  /** Field `i` of a list. */
  lemma {:induction false} FieldAt(vals: seq<nat>, i: nat)
    requires i < |vals|
    ensures Fields(vals)[8 * i..8 * i + 8] == Hex8(vals[i])
  {
    var s := Fields(vals);
    if i == 0 {
      assert s[..8] == Hex8(vals[0]);
    } else {
      FieldAt(vals[1..], i - 1);
      assert s[8..] == Fields(vals[1..]);
      assert s[8 * i..8 * i + 8] == s[8..][8 * (i - 1)..8 * (i - 1) + 8];
    }
  }

  /** The fields of a newc header that are not zero, at the offsets the format gives them. */
  lemma {:induction false} HeaderFields(r: Record)
    ensures var h := Header(r);
            && h[..6] == Ascii("070701")
            && h[6..14] == Hex8(r.ino) && h[14..22] == Hex8(r.mode)
            && h[38..46] == Hex8(1) && h[54..62] == Hex8(|r.data|) && h[94..102] == Hex8(|r.name| + 1)
  {
    var v := [r.ino, r.mode, 0, 0, 1, 0, |r.data|, 0, 0, 0, 0, |r.name| + 1, 0];
    assert "070701" == ['0', '7', '0', '7', '0', '1'];
    assert Ascii("070701") == MAGIC;
    HeaderAt(r, v, 0);
    HeaderAt(r, v, 1);
    HeaderAt(r, v, 4);
    HeaderAt(r, v, 6);
    HeaderAt(r, v, 11);
  }

  lemma {:induction false} HeaderAt(r: Record, v: seq<nat>, i: nat)
    requires v == [r.ino, r.mode, 0, 0, 1, 0, |r.data|, 0, 0, 0, 0, |r.name| + 1, 0] && i < 13
    ensures Header(r)[6 + 8 * i..14 + 8 * i] == Hex8(v[i]) && Header(r)[..6] == MAGIC
  {
    FieldAt(v, i);
    assert Header(r)[6..] == Fields(v);
    assert Header(r)[6 + 8 * i..14 + 8 * i] == Header(r)[6..][8 * i..8 * i + 8];
  }

  /** The bytes between the name and the data, with the name's NUL. */
  function NameEnd(pos: nat, r: Record): nat { pos + HEADER + |r.name| + 1 }

  /** What _eject prints when `total` bytes have been printed before. */
  function Ejected(total: nat, r: Record): (s: seq<byte>)
    ensures |s| == EjectedSize(total, r)
  {
    Nested(total, r, [])
  }

  /** The same, followed by `post`. */
  function Nested(total: nat, r: Record, post: seq<byte>): (s: seq<byte>)
    ensures |s| == EjectedSize(total, r) + |post|
  {
    var g := Gap(total);
    Zeros(g) + (Header(r) + (r.name + ([0] + (Zeros(Gap(NameEnd(total + g, r))) + (r.data + post)))))
  }

  function EjectedSize(total: nat, r: Record): nat
  {
    var end := NameEnd(total + Gap(total), r);
    end + Gap(end) + |r.data| - total
  }

  /** Printing records one after the other, `chunk` saying how one is printed. */
  function Emit(chunk: (nat, Record) -> seq<byte>, total: nat, rs: seq<Record>): (s: seq<byte>)
    decreases rs
  {
    if rs == [] then []
    else
      var s := chunk(total, rs[0]);
      s + Emit(chunk, total + |s|, rs[1..])
  }

  function Emitted(rs: seq<Record>): (s: seq<byte>)
  {
    Emit(Ejected, 0, rs)
  }

  // ---------------------------------------------------------------- the reader

  datatype Words = NoWords | Words(vals: seq<nat>)

  function ParseFields(s: seq<byte>): (w: Words)
    ensures w.Words? ==> |s| == 8 * |w.vals|
  {
    if s == [] then Words([])
    else if |s| < 8 then NoWords
    else
      match Unhex(s[..8])
      case Bad => NoWords
      case Value(n) =>
        match ParseFields(s[8..])
        case NoWords => NoWords
        case Words(vals) => Words([n] + vals)
  }

  datatype Member = Malformed | Member(r: Record, rest: seq<byte>)

  /** The archive member at the start of `b`, which is at offset `pos` of the archive. */
  function ParseMember(b: seq<byte>, pos: nat): (m: Member)
    ensures m.Member? ==> |m.rest| < |b|
  {
    if |b| < HEADER || b[..6] != MAGIC then Malformed
    else
      match ParseFields(b[6..HEADER])
      case NoWords => Malformed
      case Words(v) =>
        ParseRest(b[HEADER..], pos + HEADER, v[0], v[1], v[11], v[6])
  }

  /** The name and the data that follow a header; `b1` starts at offset `pos`. */
  function ParseRest(b1: seq<byte>, pos: nat, ino: nat, mode: nat, namesize: nat, filesize: nat): (m: Member)
    ensures m.Member? ==> |m.rest| < |b1|
  {
    if namesize == 0 || namesize > |b1| || b1[namesize - 1] != 0 then Malformed
    else
      var b2 := b1[namesize..];
      var gap := Gap(pos + namesize);
      if gap + filesize > |b2| then Malformed
      else
        var b3 := b2[gap..];
        Member(Record(ino, mode, b1[..namesize - 1], b3[..filesize]), b3[filesize..])
  }

  datatype Archive = Damaged | Archive(rs: seq<Record>)

  /** Consumes something when it succeeds. */
  ghost predicate Consumes(parse: (seq<byte>, nat) -> Member)
  {
    forall b, pos :: parse(b, pos).Member? ==> |parse(b, pos).rest| < |b|
  }

  /** The reader of a single archive: members, each on a multiple of four, until the trailer; `b` starts at
      offset `pos`.  It does not look for further archives behind the trailer. */
  ghost function Members(parse: (seq<byte>, nat) -> Member, b: seq<byte>, pos: nat): (a: Archive)
    requires Consumes(parse)
    decreases |b|
  {
    if |b| < Gap(pos) then Damaged
    else
      match parse(b[Gap(pos)..], pos + Gap(pos))
      case Malformed => Damaged
      case Member(r, rest) =>
        if r.name == TRAILER then Archive([])
        else
          match Members(parse, rest, pos + |b| - |rest|)
          case Damaged => Damaged
          case Archive(rs) => Archive([r] + rs)
  }

  ghost function Decode(b: seq<byte>): (a: Archive)
  {
    Members(ParseMember, b, 0)
  }

  // ---------------------------------------------------------------- round trip

  lemma {:induction false} UnhexHex8(n: nat)
    requires n < WORD
    ensures Unhex(Hex8(n)) == Value(n)
  {
    Pow16Eight();
    assert n % WORD == n;
    UnhexHex(n, 8);
  }

  lemma {:induction false} ParseFieldsFields(vals: seq<nat>)
    requires forall i :: 0 <= i < |vals| ==> vals[i] < WORD
    ensures ParseFields(Fields(vals)) == Words(vals)
  {
    if vals != [] {
      UnhexHex8(vals[0]);
      ParseFieldsFields(vals[1..]);
      var s := Fields(vals);
      assert s[..8] == Hex8(vals[0]) && s[8..] == Fields(vals[1..]);
      assert vals == [vals[0]] + vals[1..];
    }
  }

  lemma Cut(x: seq<byte>, y: seq<byte>)
    ensures (x + y)[..|x|] == x && (x + y)[|x|..] == y
  {
  }

  /** A header that says this of a record. */
  ghost predicate Heads(header: seq<byte>, r: Record)
  {
    && |header| == HEADER && header[..6] == MAGIC
    && ParseFields(header[6..]) == Words([r.ino, r.mode, 0, 0, 1, 0, |r.data|, 0, 0, 0, 0, |r.name| + 1, 0])
  }

  lemma {:induction false} HeaderHeads(r: Record)
    requires Printable(r)
    ensures Heads(Header(r), r)
  {
    var v := [r.ino, r.mode, 0, 0, 1, 0, |r.data|, 0, 0, 0, 0, |r.name| + 1, 0];
    ParseFieldsFields(v);
    assert Header(r)[6..] == Fields(v) && Header(r)[..6] == MAGIC;
  }

  /** The name and the data, with what is between them, followed by `post`. */
  function Body(pos: nat, r: Record, post: seq<byte>): seq<byte>
  {
    r.name + ([0] + (Zeros(Gap(NameEnd(pos, r))) + (r.data + post)))
  }

  /** The header leads to the name and the data. */
  lemma {:induction false} HeadLeads(header: seq<byte>, pos: nat, r: Record, t1: seq<byte>, m: Member)
    requires Heads(header, r) && m == ParseRest(t1, pos + HEADER, r.ino, r.mode, |r.name| + 1, |r.data|)
    ensures ParseMember(header + t1, pos) == m
  {
    var b := header + t1;
    assert b[..6] == header[..6] && b[6..HEADER] == header[6..] && b[HEADER..] == t1;
  }

  /** A record behind its header is read back, and reading goes on after it. */
  lemma {:induction false} ParseEjected(header: seq<byte>, pos: nat, r: Record, post: seq<byte>)
    requires Heads(header, r)
    ensures ParseMember(header + Body(pos, r, post), pos) == Member(r, post)
  {
    RestParses(pos + HEADER, r, post);
    HeadLeads(header, pos, r, Body(pos, r, post), Member(r, post));
  }

  lemma {:induction false} RestParses(pos: nat, r: Record, post: seq<byte>)
    ensures var t1 := r.name + ([0] + (Zeros(Gap(pos + |r.name| + 1)) + (r.data + post)));
            ParseRest(t1, pos, r.ino, r.mode, |r.name| + 1, |r.data|) == Member(r, post)
  {
    var gap := Gap(pos + |r.name| + 1);
    var t3 := r.data + post;
    var t2 := Zeros(gap) + t3;
    var t1 := r.name + ([0] + t2);
    assert t1[..|r.name|] == r.name && t1[|r.name|] == 0 && t1[|r.name| + 1..] == t2;
    Cut(Zeros(gap), t3);
    Cut(r.data, post);
  }

  /** The records before the first one that is named like the trailer. */
  function UpToTrailer(rs: seq<Record>): (r: seq<Record>)
  {
    if rs == [] || rs[0].name == TRAILER then [] else [rs[0]] + UpToTrailer(rs[1..])
  }

  lemma {:induction false} UpToTrailerAll(rs: seq<Record>)
    ensures UpToTrailer(rs) == rs <==> forall i :: 0 <= i < |rs| ==> rs[i].name != TRAILER
  {
    if rs != [] {
      UpToTrailerAll(rs[1..]);
      assert rs == [rs[0]] + rs[1..];
      assert forall i :: 1 <= i < |rs| ==> rs[i] == rs[1..][i - 1];
      assert UpToTrailer(rs) == rs ==> UpToTrailer(rs)[1..] == rs[1..];
    }
  }

  /** Reading one member. */
  lemma MembersOne(parse: (seq<byte>, nat) -> Member, b: seq<byte>, total: nat, r: Record, tail: seq<byte>)
    requires Consumes(parse) && |b| >= Gap(total)
    requires parse(b[Gap(total)..], total + Gap(total)) == Member(r, tail)
    ensures Members(parse, b, total) ==
            if r.name == TRAILER then Archive([])
            else match Members(parse, tail, total + |b| - |tail|)
                 case Damaged => Damaged
                 case Archive(rs) => Archive([r] + rs)
  {
  }

  lemma {:induction false} EjectedThen(total: nat, r: Record, post: seq<byte>)
    ensures Ejected(total, r) + post == Nested(total, r, post)
  {
    var g := Gap(total);
    var z := Zeros(Gap(NameEnd(total + g, r)));
    assert (r.data + []) + post == r.data + post;
    assert (z + (r.data + [])) + post == z + (r.data + post);
    assert ([0] + (z + (r.data + []))) + post == [0] + (z + (r.data + post));
    assert (r.name + ([0] + (z + (r.data + [])))) + post == r.name + ([0] + (z + (r.data + post)));
    assert (Header(r) + (r.name + ([0] + (z + (r.data + []))))) + post
        == Header(r) + (r.name + ([0] + (z + (r.data + post))));
  }

  /** What is printed is, behind the gap, a header and what follows it. */
  ghost predicate Cuts(chunk: (nat, Record) -> seq<byte>, head: Record -> seq<byte>,
                       body: (nat, Record, seq<byte>) -> seq<byte>, total: nat, r: Record, tail: seq<byte>)
  {
    && |chunk(total, r)| >= Gap(total)
    && (chunk(total, r) + tail)[Gap(total)..] == head(r) + body(total + Gap(total), r, tail)
  }

  /** A header and what follows it are read as the record. */
  ghost predicate Gets(parse: (seq<byte>, nat) -> Member, head: Record -> seq<byte>,
                       body: (nat, Record, seq<byte>) -> seq<byte>, pos: nat, r: Record, tail: seq<byte>)
  {
    parse(head(r) + body(pos, r, tail), pos) == Member(r, tail)
  }

  lemma {:induction false} EjectedCuts(total: nat, r: Record, tail: seq<byte>)
    ensures Cuts(Ejected, Header, Body, total, r, tail)
  {
    EjectedThen(total, r, tail);
    Cut(Zeros(Gap(total)), Header(r) + Body(total + Gap(total), r, tail));
  }

  lemma {:induction false} ParserGets(pos: nat, r: Record, tail: seq<byte>)
    requires Printable(r)
    ensures Gets(ParseMember, Header, Body, pos, r, tail)
  {
    HeaderHeads(r);
    ParseEjected(Header(r), pos, r, tail);
  }

  /** Takes a record off the front of what was printed. */
  ghost predicate ReadsOne(parse: (seq<byte>, nat) -> Member, chunk: (nat, Record) -> seq<byte>,
                           total: nat, r: Record, tail: seq<byte>)
  {
    && |chunk(total, r)| >= Gap(total)
    && parse((chunk(total, r) + tail)[Gap(total)..], total + Gap(total)) == Member(r, tail)
  }

  ghost predicate ReadsBack(parse: (seq<byte>, nat) -> Member, chunk: (nat, Record) -> seq<byte>)
  {
    forall total: nat, r, tail :: Printable(r) ==> ReadsOne(parse, chunk, total, r, tail)
  }

  /** A record that was ejected is taken off the front again, wherever it was printed. */
  lemma DecodeEjected(total: nat, r: Record, tail: seq<byte>)
    requires Printable(r)
    ensures ReadsOne(ParseMember, Ejected, total, r, tail)
  {
    ParserReadsBack();
  }

  /** Cutting at the header and reading from there is reading what was printed. */
  lemma CutAndGot(parse: (seq<byte>, nat) -> Member, chunk: (nat, Record) -> seq<byte>, head: Record -> seq<byte>,
                  body: (nat, Record, seq<byte>) -> seq<byte>)
    requires forall total: nat, r, tail :: Cuts(chunk, head, body, total, r, tail)
    requires forall pos: nat, r, tail :: Printable(r) ==> Gets(parse, head, body, pos, r, tail)
    ensures ReadsBack(parse, chunk)
  {
    forall total: nat, r, tail | Printable(r) ensures ReadsOne(parse, chunk, total, r, tail) {
      assert Cuts(chunk, head, body, total, r, tail) && Gets(parse, head, body, total + Gap(total), r, tail);
    }
  }

  lemma ParserConsumes()
    ensures Consumes(ParseMember)
  {
  }

  lemma ParserReadsBack()
    ensures Consumes(ParseMember) && ReadsBack(ParseMember, Ejected)
  {
    ParserConsumes();
    forall total: nat, r, tail ensures Cuts(Ejected, Header, Body, total, r, tail) { EjectedCuts(total, r, tail); }
    forall pos: nat, r, tail | Printable(r) ensures Gets(ParseMember, Header, Body, pos, r, tail) {
      ParserGets(pos, r, tail);
    }
    CutAndGot(ParseMember, Ejected, Header, Body);
  }

  lemma {:induction false} EmitFirst(chunk: (nat, Record) -> seq<byte>, total: nat, r: Record, more: seq<Record>,
                                     post: seq<byte>)
    ensures var s := chunk(total, r);
            Emit(chunk, total, [r] + more) + post == s + (Emit(chunk, total + |s|, more) + post)
  {
    var s := chunk(total, r);
    assert ([r] + more)[1..] == more;
    assert (s + Emit(chunk, total + |s|, more)) + post == s + (Emit(chunk, total + |s|, more) + post);
  }

  lemma {:induction false} MembersEmit(parse: (seq<byte>, nat) -> Member, chunk: (nat, Record) -> seq<byte>,
                                       total: nat, rs: seq<Record>, t: Record, post: seq<byte>)
    requires Consumes(parse) && ReadsBack(parse, chunk)
    requires forall i :: 0 <= i < |rs| ==> Printable(rs[i])
    requires Printable(t) && t.name == TRAILER
    ensures Members(parse, Emit(chunk, total, rs + [t]) + post, total) == Archive(UpToTrailer(rs))
    decreases rs
  {
    var r, more := if rs == [] then t else rs[0], if rs == [] then [] else rs[1..] + [t];
    assert rs + [t] == [r] + more;
    EmitFirst(chunk, total, r, more, post);
    var n := total + |chunk(total, r)|;
    MembersNext(parse, chunk, Emit(chunk, total, rs + [t]) + post, total, r, Emit(chunk, n, more) + post);
    if rs != [] { MembersEmit(parse, chunk, n, rs[1..], t, post); }
  }

  /** Reading what was printed gives the first record and then what the rest gives. */
  lemma {:induction false} MembersNext(parse: (seq<byte>, nat) -> Member, chunk: (nat, Record) -> seq<byte>,
                                       b: seq<byte>, total: nat, r: Record, tail: seq<byte>)
    requires Consumes(parse) && ReadsBack(parse, chunk) && Printable(r) && b == chunk(total, r) + tail
    ensures Members(parse, b, total) ==
            if r.name == TRAILER then Archive([])
            else match Members(parse, tail, total + |chunk(total, r)|)
                 case Damaged => Damaged
                 case Archive(rs) => Archive([r] + rs)
  {
    assert ReadsOne(parse, chunk, total, r, tail);
    MembersOne(parse, b, total, r, tail);
  }

  /** Reading an archive gives back what was written, up to the first member with the trailer's
      name; so all of it exactly when no member has that name. */
  lemma DecodeEmitted(rs: seq<Record>, t: Record, post: seq<byte>)
    requires forall i :: 0 <= i < |rs| ==> Printable(rs[i])
    requires Printable(t) && t.name == TRAILER
    ensures Decode(Emitted(rs + [t]) + post) == Archive(UpToTrailer(rs))
  {
    ParserReadsBack();
    MembersEmit(ParseMember, Ejected, 0, rs, t, post);
  }

  /** Printing one more record. */
  lemma {:induction false} EmitSnoc(chunk: (nat, Record) -> seq<byte>, total: nat, rs: seq<Record>, r: Record)
    ensures var s := Emit(chunk, total, rs);
            Emit(chunk, total, rs + [r]) == s + chunk(total + |s|, r)
    decreases rs
  {
    if rs == [] {
      assert rs + [r] == [r];
    } else {
      EmitSnoc(chunk, total + |chunk(total, rs[0])|, rs[1..], r);
      assert (rs + [r])[1..] == rs[1..] + [r];
    }
  }

  lemma {:induction false} EmittedSnoc(rs: seq<Record>, r: Record)
    ensures Emitted(rs + [r]) == Emitted(rs) + Ejected(|Emitted(rs)|, r)
  {
    EmitSnoc(Ejected, 0, rs, r);
  }

  /** The round trip is exact if and only if no member is called like the trailer. */
  lemma RoundTrip(rs: seq<Record>, t: Record, post: seq<byte>)
    requires forall i :: 0 <= i < |rs| ==> Printable(rs[i])
    requires Printable(t) && t.name == TRAILER
    ensures Decode(Emitted(rs + [t]) + post) == Archive(rs)
            <==> forall i :: 0 <= i < |rs| ==> rs[i].name != TRAILER
  {
    DecodeEmitted(rs, t, post);
    UpToTrailerAll(rs);
  }

  /** For this reader a file of that name hides itself and all that follows. */
  lemma TrailerNameHides(rest: seq<Record>, t: Record)
    requires forall i :: 0 <= i < |rest| ==> Printable(rest[i])
    requires Printable(t) && t.name == TRAILER
    ensures Decode(Emitted([Record(300000, 0x81a4, TRAILER, [1])] + rest + [t])) == Archive([])
  {
    var r := Record(300000, 0x81a4, TRAILER, [1]);
    DecodeEmitted([r] + rest, t, []);
    assert Emitted([r] + rest + [t]) + [] == Emitted([r] + rest + [t]);
  }
}
