/** mkbootfs: walks a directory tree with one path buffer that is extended and restored in place,
    and prints a cpio archive.  The archive reads back as the listing of the tree: entries that are
    neither dot files nor called "root", sorted by name, each directory before its contents. */
module Mkbootfs {
  import opened Bytes
  import opened CpioFormat

  datatype Entry = Entry(name: seq<byte>, node: Node)

  /** What lstat, read, readdir and readlink say about a path. */
  datatype Node =
    | File(mode: nat, data: seq<byte>)
    | Dir(mode: nat, entries: seq<Entry>)
    | Link(mode: nat, target: seq<byte>)
    | Special(mode: nat)

  const PATH: nat := 8192
  const SLASH: byte := 47
  const DOT: byte := 46
  const ROOT: seq<byte> := [114, 111, 111, 116]
  const LINK_MAX: nat := 1024
  const FIRST_INODE: nat := 300000

  // ---------------------------------------------------------------- order

  /** strcmp(a, b) < 0. */
  predicate Before(a: seq<byte>, b: seq<byte>)
  {
    b != [] && (a == [] || a[0] < b[0] || (a[0] == b[0] && Before(a[1..], b[1..])))
  }

  lemma {:induction false} BeforeTotal(a: seq<byte>, b: seq<byte>)
    ensures Before(a, b) || Before(b, a) || a == b
    ensures !(Before(a, b) && Before(b, a)) && !Before(a, a)
  {
    if a != [] && b != [] {
      BeforeTotal(a[1..], b[1..]);
      BeforeTotal(a[1..], a[1..]);
      if a[0] == b[0] && a[1..] == b[1..] { assert a == [a[0]] + a[1..] == b; }
    } else if a != [] {
      BeforeTotal(a[1..], a[1..]);
    }
  }

  /** strcmp compares the first bytes that differ, and a text comes before its extensions. */
  lemma {:induction false} BeforeExactly(a: seq<byte>, b: seq<byte>) returns (k: nat)
    ensures k <= |a| && k <= |b| && a[..k] == b[..k]
    ensures k < |a| && k < |b| ==> a[k] != b[k]
    ensures Before(a, b) <==> k < |b| && (k == |a| || a[k] < b[k])
  {
    if a == [] || b == [] || a[0] != b[0] {
      k := 0;
    } else {
      var j := BeforeExactly(a[1..], b[1..]);
      k := j + 1;
      assert a[..k] == [a[0]] + a[1..][..j] && b[..k] == [b[0]] + b[1..][..j];
    }
  }

  lemma {:induction false} BeforeTransitive(a: seq<byte>, b: seq<byte>, c: seq<byte>)
    requires Before(a, b) && Before(b, c)
    ensures Before(a, c)
  {
    if a != [] && a[0] == b[0] == c[0] { BeforeTransitive(a[1..], b[1..], c[1..]); }
  }

  predicate Sorted(es: seq<Entry>)
  {
    forall i, j :: 0 <= i < j < |es| ==> !Before(es[j].name, es[i].name)
  }

  predicate DistinctNames(es: seq<Entry>)
  {
    forall i, j :: 0 <= i < j < |es| ==> es[i].name != es[j].name
  }

  /** The same for a bag of entries: no two of them share a name. */
  ghost predicate NoClash(m: multiset<Entry>)
  {
    forall e, f :: e in m && f in m && e.name == f.name ==> e == f && m[e] == 1
  }

  lemma NoClashDistinct(x: seq<Entry>)
    requires NoClash(multiset(x))
    ensures DistinctNames(x)
  {
    forall i, j | 0 <= i < j < |x| ensures x[i].name != x[j].name {
      assert x == x[..j] + x[j..];
      assert x[i] in x[..j] && x[j] in x[j..];
      assert multiset(x) == multiset(x[..j]) + multiset(x[j..]);
      assert x[i] == x[j] ==> multiset(x)[x[i]] >= 2;
    }
  }

  function Insert(e: Entry, es: seq<Entry>): (r: seq<Entry>)
    ensures multiset(r) == multiset{e} + multiset(es)
  {
    if es == [] || Before(e.name, es[0].name) then [e] + es
    else
      assert es == [es[0]] + es[1..];
      [es[0]] + Insert(e, es[1..])
  }

  /** qsort with strcmp. */
  function Sort(es: seq<Entry>): (r: seq<Entry>)
    ensures multiset(r) == multiset(es)
  {
    if es == [] then []
    else
      assert es == [es[0]] + es[1..];
      Insert(es[0], Sort(es[1..]))
  }

  lemma {:induction false} InsertSorted(e: Entry, es: seq<Entry>)
    requires Sorted(es)
    ensures Sorted(Insert(e, es))
  {
    if es != [] && !Before(e.name, es[0].name) {
      InsertSorted(e, es[1..]);
      var r := Insert(e, es[1..]);
      forall j | 0 <= j < |r| ensures !Before(r[j].name, es[0].name) {
        assert r[j] in multiset(r);
        assert r[j] == e || r[j] in es[1..];
      }
    } else if es != [] {
      forall j | 0 <= j < |es| ensures !Before(es[j].name, e.name) {
        BeforeTotal(e.name, es[0].name);
        BeforeTotal(es[0].name, es[j].name);
        if Before(es[j].name, e.name) { BeforeTransitive(es[j].name, e.name, es[0].name); }
      }
    }
  }

  lemma {:induction false} SortSorted(es: seq<Entry>)
    ensures Sorted(Sort(es))
  {
    if es != [] {
      SortSorted(es[1..]);
      InsertSorted(es[0], Sort(es[1..]));
    }
  }

  lemma SameFirst(x: seq<Entry>, y: seq<Entry>)
    requires x != [] && y != [] && x[0] in y && y[0] in x
    requires Sorted(x) && Sorted(y) && DistinctNames(x)
    ensures x[0] == y[0]
  {
    var i :| 0 <= i < |x| && x[i] == y[0];
    var j :| 0 <= j < |y| && y[j] == x[0];
    BeforeTotal(x[0].name, y[0].name);
    BeforeTotal(x[0].name, x[0].name);
  }

  lemma TailMembers(x: seq<Entry>)
    requires x != []
    ensures multiset(x[1..]) == multiset(x) - multiset{x[0]}
  {
    assert x == [x[0]] + x[1..];
  }

  /** A sorted list of entries with distinct names is determined by its members, so the order in
      which readdir delivers them does not matter. */
  lemma {:induction false} SortedUnique(x: seq<Entry>, y: seq<Entry>)
    requires multiset(x) == multiset(y) && Sorted(x) && Sorted(y) && NoClash(multiset(x))
    ensures x == y
  {
    NoClashDistinct(x);
    assert |x| == |multiset(x)| == |multiset(y)| == |y|;
    if x != [] {
      assert x[0] in multiset(y) && y[0] in multiset(x);
      SameFirst(x, y);
      TailMembers(x);
      TailMembers(y);
      SortedUnique(x[1..], y[1..]);
    }
  }

  // ---------------------------------------------------------------- the listing

  /** Dot files and entries called "root" are left out. */
  predicate Wanted(name: seq<byte>)
  {
    (name == [] || name[0] != DOT) && name != ROOT
  }

  lemma WantedExactly(name: seq<byte>)
    ensures !Wanted(name) <==> [46] <= name || name == [114, 111, 111, 116]
  {
  }

  function Keep(es: seq<Entry>): (r: seq<Entry>)
  {
    if es == [] then []
    else if Wanted(es[0].name) then [es[0]] + Keep(es[1..])
    else Keep(es[1..])
  }

  lemma {:induction false} KeepMembers(es: seq<Entry>, e: Entry)
    ensures multiset(Keep(es))[e] == if Wanted(e.name) then multiset(es)[e] else 0
  {
    if es != [] {
      KeepMembers(es[1..], e);
      assert es == [es[0]] + es[1..];
    }
  }

  /** The order in which a directory is archived. */
  function Chosen(es: seq<Entry>): (r: seq<Entry>)
  {
    Sort(Keep(es))
  }

  lemma ChosenMembers(es: seq<Entry>)
    ensures forall e :: e in Chosen(es) <==> e in es && Wanted(e.name)
  {
    forall e ensures e in Chosen(es) <==> e in es && Wanted(e.name) {
      KeepMembers(es, e);
      assert e in Chosen(es) <==> e in multiset(Chosen(es));
    }
  }

  /** The archive does not depend on the order in which readdir delivers the names. */
  lemma ChosenIgnoresOrder(es: seq<Entry>, fs: seq<Entry>)
    requires multiset(es) == multiset(fs) && NoClash(multiset(es))
    ensures Chosen(es) == Chosen(fs)
  {
    forall e: Entry ensures multiset(Keep(es))[e] == multiset(Keep(fs))[e] <= multiset(es)[e] {
      KeepMembers(es, e);
      KeepMembers(fs, e);
    }
    assert multiset(Keep(es)) == multiset(Keep(fs));
    SortSorted(Keep(es));
    SortSorted(Keep(fs));
    SortedUnique(Sort(Keep(es)), Sort(Keep(fs)));
  }

  function Max(a: nat, b: nat): nat { if a < b then b else a }

  function Height(n: Node): (h: nat)
    decreases n
  {
    if n.Dir? then 1 + Heights(n.entries) else 0
  }

  function Heights(es: seq<Entry>): (h: nat)
    decreases es
  {
    if es == [] then 0 else Max(Height(es[0].node), Heights(es[1..]))
  }

  lemma {:induction false} HeightsBound(es: seq<Entry>, e: Entry)
    requires e in es
    ensures Height(e.node) <= Heights(es)
  {
    if e != es[0] { HeightsBound(es[1..], e); }
  }

  lemma {:induction false} HeightsSubset(es: seq<Entry>, fs: seq<Entry>)
    requires forall e :: e in es ==> e in fs
    ensures Heights(es) <= Heights(fs)
  {
    if es != [] {
      HeightsBound(fs, es[0]);
      HeightsSubset(es[1..], fs);
    }
  }

  lemma HeightsChosen(es: seq<Entry>)
    ensures Heights(Chosen(es)) <= Heights(es)
  {
    ChosenMembers(es);
    HeightsSubset(Chosen(es), es);
  }

  /** The path of an entry. */
  function Join(path: seq<byte>, name: seq<byte>): seq<byte>
  {
    if path == [] then name else path + [SLASH] + name
  }

  /** readlink into a buffer of 1024 bytes. */
  function Truncated(target: seq<byte>): seq<byte>
  {
    if |target| < LINK_MAX then target else target[..LINK_MAX]
  }

  /** The record of a path, without data. */
  function Head(path: seq<byte>, mode: nat, ino: nat, fix: (seq<byte>, nat) -> nat): Record
  {
    Record(ino % WORD, fix(path, mode) % WORD, path, [])
  }

  ghost predicate ShrinksAt(pick: seq<Entry> -> seq<Entry>, es: seq<Entry>) { Heights(pick(es)) <= Heights(es) }

  /** Keeps no more than there is. */
  ghost predicate Shrinks(pick: seq<Entry> -> seq<Entry>) { forall es :: ShrinksAt(pick, es) }

  /** The records of a node and all below it, the entries of a directory as `pick` gives them; `fix` is
      the mode that fix_stat gives to a path. */
  ghost function Walk(pick: seq<Entry> -> seq<Entry>, n: Node, path: seq<byte>, ino: nat,
                      fix: (seq<byte>, nat) -> nat): (rs: seq<Record>)
    requires Shrinks(pick)
    decreases Height(n), 0
  {
    var head := Head(path, n.mode, ino, fix);
    match n
    case File(_, data) => [head.(data := data)]
    case Link(_, target) => [head.(data := Truncated(target))]
    case Dir(_, entries) =>
      assert ShrinksAt(pick, entries);
      [head] + Walks(pick, pick(entries), path, ino + 1, fix)
    case Special(_) => []
  }

  ghost function Walks(pick: seq<Entry> -> seq<Entry>, es: seq<Entry>, path: seq<byte>, ino: nat,
                       fix: (seq<byte>, nat) -> nat): (rs: seq<Record>)
    requires Shrinks(pick)
    decreases Heights(es), |es| + 1
  {
    if es == [] then []
    else
      var rs := Walk(pick, es[0].node, Join(path, es[0].name), ino, fix);
      rs + Walks(pick, es[1..], path, ino + |rs|, fix)
  }

  lemma ChosenShrinks()
    ensures Shrinks(Chosen)
  {
    forall es ensures ShrinksAt(Chosen, es) { HeightsChosen(es); }
  }

  ghost function Listing(n: Node, path: seq<byte>, ino: nat, fix: (seq<byte>, nat) -> nat): (rs: seq<Record>)
  {
    ChosenShrinks();
    Walk(Chosen, n, path, ino, fix)
  }

  ghost function Listings(es: seq<Entry>, path: seq<byte>, ino: nat, fix: (seq<byte>, nat) -> nat): (rs: seq<Record>)
  {
    ChosenShrinks();
    Walks(Chosen, es, path, ino, fix)
  }

  /** What lstat, open, readlink and opendir find at a path. */
  type FileSystem = seq<byte> -> Node

  /** What the program takes for granted: what a directory lists is found at its path, names are C strings,
      both paths fit their buffers, sizes fit the header. */
  ghost predicate Storable(fs: FileSystem, path: seq<byte>, n: Node, olen: nat)
    decreases n
  {
    && fs(path) == n
    && match n {
         case File(_, data) => |data| < WORD
         case Link(_, _) => true
         case Special(_) => true
         case Dir(_, entries) => forall e | e in entries :: StorableEntry(fs, path, e, olen)
       }
  }

  ghost predicate StorableEntry(fs: FileSystem, path: seq<byte>, e: Entry, olen: nat)
    decreases e
  {
    && e.name != [] && 0 !in e.name
    && |path| + 1 + |e.name| < PATH && JoinLen(olen, |e.name|) < PATH
    && Storable(fs, path + [SLASH] + e.name, e.node, JoinLen(olen, |e.name|))
  }

  function JoinLen(olen: nat, t: nat): nat { if olen > 0 then olen + t + 1 else t }

  /** No device nodes, pipes and so on among what will be archived. */
  ghost predicate Supported(n: Node)
  {
    match n
    case File(_, _) => true
    case Link(_, _) => true
    case Special(_) => false
    case Dir(_, entries) => forall e | e in entries && Wanted(e.name) :: Supported(e.node)
  }

  // ---------------------------------------------------------------- the program

  ghost predicate AllPrintable(rs: seq<Record>)
  {
    forall i :: 0 <= i < |rs| ==> Printable(rs[i])
  }

  /** A directory to archive and the path its contents get. */
  datatype Arg = Arg(start: seq<byte>, prefix: seq<byte>)

  /** What opendir lists. */
  function EntriesAt(fs: FileSystem, path: seq<byte>): seq<Entry>
  {
    if fs(path).Dir? then fs(path).entries else []
  }

  ghost predicate StorableArg(fs: FileSystem, a: Arg)
  {
    && |a.start| < PATH && 0 !in a.start && |a.prefix| < PATH && 0 !in a.prefix
    && (forall e | e in EntriesAt(fs, a.start) :: StorableEntry(fs, a.start, e, |a.prefix|))
  }

  ghost predicate SupportedArg(fs: FileSystem, a: Arg)
  {
    && fs(a.start).Dir?
    && forall e | e in EntriesAt(fs, a.start) && Wanted(e.name) :: Supported(e.node)
  }

  /** The records of one directory on the command line. */
  ghost function ArgListing(fs: FileSystem, fix: (seq<byte>, nat) -> nat): (Arg, nat) -> seq<Record>
  {
    (a: Arg, ino: nat) => Listings(Chosen(EntriesAt(fs, a.start)), a.prefix, ino, fix)
  }

  /** The records of a list of directories, `list` saying what those of one are. */
  function Gather(list: (Arg, nat) -> seq<Record>, args: seq<Arg>, ino: nat): (rs: seq<Record>)
  {
    if args == [] then []
    else
      var k := |args| - 1;
      var rs := Gather(list, args[..k], ino);
      rs + list(args[k], ino + |rs|)
  }

  ghost function ListingOf(fs: FileSystem, args: seq<Arg>, ino: nat, fix: (seq<byte>, nat) -> nat): (rs: seq<Record>)
  {
    Gather(ArgListing(fs, fix), args, ino)
  }

  ghost predicate ListsArg(list: (Arg, nat) -> seq<Record>, fs: FileSystem, fix: (seq<byte>, nat) -> nat, a: Arg, ino: nat)
  {
    list(a, ino) == Listings(Chosen(EntriesAt(fs, a.start)), a.prefix, ino, fix)
  }

  /** `list` gives the records of any directory. */
  ghost predicate Lists(list: (Arg, nat) -> seq<Record>, fs: FileSystem, fix: (seq<byte>, nat) -> nat)
  {
    forall a, ino: nat :: ListsArg(list, fs, fix, a, ino)
  }

  /** One more directory. */
  ghost predicate GathersNext(gather: seq<Arg> -> seq<Record>, list: (Arg, nat) -> seq<Record>, args: seq<Arg>, i: nat)
    requires i < |args|
  {
    var rs := gather(args[..i]);
    gather(args[..i + 1]) == rs + list(args[i], FIRST_INODE + |rs|)
  }

  ghost predicate JudgesArg(fits: Arg -> bool, good: Arg -> bool, fs: FileSystem, a: Arg)
  {
    (fits(a) <==> StorableArg(fs, a)) && (good(a) <==> SupportedArg(fs, a))
  }

  ghost predicate Judges(fits: Arg -> bool, good: Arg -> bool, fs: FileSystem)
  {
    forall a :: JudgesArg(fits, good, fs, a)
  }

  lemma {:induction false} GatherSnoc(list: (Arg, nat) -> seq<Record>, args: seq<Arg>, i: nat, ino: nat)
    requires i < |args|
    ensures var rs := Gather(list, args[..i], ino);
            Gather(list, args[..i + 1], ino) == rs + list(args[i], ino + |rs|)
  {
    assert args[..i + 1][..i] == args[..i];
  }

  class Archiver {
    /** The path of the current entry, in the file system and in the archive, as C strings. */
    const inp: array<byte>
    const out: array<byte>
    const fs: FileSystem
    /** The mode that fix_stat gives to a path. */
    const fix: (seq<byte>, nat) -> nat
    var total: nat
    var inode: nat
    var output: seq<byte>
    /** What has been archived so far. */
    ghost var recs: seq<Record>

    ghost predicate Valid()
      reads this
    {
      && inp.Length == out.Length == PATH && inp != out
      && total == |output|
      && output == Emitted(recs)
      && AllPrintable(recs)
    }

    /** The buffers hold paths of these lengths. */
    ghost predicate Holds(ilen: nat, olen: nat)
      reads inp, out
    {
      HoldsPath(inp, ilen) && HoldsPath(out, olen)
    }

    /** Both paths are as before. */
    twostate predicate Restored(ilen: nat, olen: nat)
      requires old(Holds(ilen, olen))
      reads inp, out
    {
      Holds(ilen, olen) && inp[..ilen] == old(inp[..ilen]) && out[..olen] == old(out[..olen])
    }

    constructor (fs: FileSystem, fix: (seq<byte>, nat) -> nat)
      ensures Valid() && recs == [] && inode == FIRST_INODE && fresh(inp) && fresh(out)
      ensures this.fs == fs && this.fix == fix
    {
      this.fs, this.fix := fs, fix;
      inp, out := new byte[PATH](_ => 0), new byte[PATH](_ => 0);
      total, inode, output, recs := 0, FIRST_INODE, [], [];
    }

    method Putchar(c: byte)
      modifies this`total, this`output
      ensures total == old(total) + 1 && output == old(output) + [c]
    {
      total := total + 1;
      output := output + [c];
    }

    /** The padding loops of _eject. */
    method PadToWord()
      requires total == |output|
      modifies this`total, this`output
      ensures total == |output| == old(total) + Gap(old(total))
      ensures output == old(output) + Zeros(Gap(old(total)))
    {
      ghost var k, end := 0, total + Gap(total);
      while total % 4 != 0
        invariant total == |output| == old(total) + k && total <= end && end % 4 == 0 && end - old(total) < 4
        invariant output == old(output) + Zeros(k)
        decreases end - total
      {
        Putchar(0);
        k := k + 1;
      }
    }

    /** The padding loop of _eject_trailer. */
    method PadToBlock() returns (ghost k: nat)
      requires total == |output|
      modifies this`total, this`output
      ensures total == |output| == old(total) + k && total % 256 == 0
      ensures output == old(output) + Zeros(k)
    {
      k := 0;
      ghost var end := (total / 256 + 1) * 256;
      while total % 256 != 0
        invariant total == |output| == old(total) + k && total <= end && end % 256 == 0
        invariant output == old(output) + Zeros(k)
        decreases end - total
      {
        Putchar(0);
        k := k + 1;
      }
    }

    method StrLen() returns (n: nat)
      requires exists i :: 0 <= i < out.Length && out[i] == 0
      ensures n < out.Length && out[n] == 0 && 0 !in out[..n]
    {
      n := 0;
      while out[n] != 0
        invariant n < out.Length && 0 !in out[..n]
        decreases out.Length - n
      {
        n := n + 1;
      }
    }

    /** _eject.  The "ACK!" check cannot fail: the string in the buffer has the length it is given. */
    method Eject(mode: nat, olen: nat, data: seq<byte>)
      requires Valid() && HoldsPath(out, olen) && |data| < WORD
      modifies this`total, this`output, this`inode, this`recs
      ensures Valid() && inode == old(inode) + 1
      ensures recs == old(recs) + [Record(old(inode) % WORD, fix(out[..olen], mode) % WORD, out[..olen], data)]
    {
      var n := StrLen();
      assert n == olen;
      var r := Record(inode % WORD, fix(out[..olen], mode) % WORD, out[..n], data);
      inode := inode + 1;
      PrintRecord(r);
      recs := recs + [r];
      EmittedSnoc(old(recs), r);
    }

    /** The output statements of _eject. */
    method PrintRecord(r: Record)
      requires total == |output|
      modifies this`total, this`output
      ensures total == |output| && output == old(output) + Ejected(old(total), r)
    {
      PadToWord();
      output := output + Header(r) + r.name + [0];
      total := total + HEADER + |r.name| + 1;
      PadToWord();
      output := output + r.data;
      total := total + |r.data|;
      EjectedIs(old(total), r, old(output), output);
    }

    /** Extends the path in the archive by a name. */
    method Extend(olen: nat, name: seq<byte>) returns (n: nat)
      requires HoldsPath(out, olen) && 0 !in name && JoinLen(olen, |name|) < out.Length
      modifies out
      ensures n == JoinLen(olen, |name|) && HoldsPath(out, n)
      ensures out[..n] == Join(old(out[..olen]), name) && out[..olen] == old(out[..olen])
    {
      if olen > 0 {
        AppendName(out, olen, name);
        n := olen + 1 + |name|;
      } else {
        PutName(out, 0, name);
        n := |name|;
        assert out[..n] == out[0..n];
      }
    }

    /** The readdir loop of _archive_dir, and qsort. */
    method ReadNames(entries: seq<Entry>) returns (names: seq<Entry>)
      ensures names == Chosen(entries)
    {
      names := [];
      for i := 0 to |entries|
        invariant names == Keep(entries[..i])
      {
        KeepSnoc(entries, i);
        if entries[i].name != [] && entries[i].name[0] == DOT { continue; }
        if entries[i].name == ROOT { continue; }
        names := names + [entries[i]];
      }
      assert entries[..|entries|] == entries;
      names := Sort(names);
    }

    /** One round of the loop of _archive_dir: the paths are extended, used and restored. */
    method ArchiveEntry(e: Entry, ilen: nat, olen: nat) returns (ok: bool)
      requires Valid() && Holds(ilen, olen) && StorableEntry(fs, inp[..ilen], e, olen)
      modifies this`total, this`output, this`inode, this`recs, inp, out
      ensures Valid()
      ensures ok <==> Supported(e.node)
      ensures ok ==> Restored(ilen, olen)
      ensures ok ==> var rs := Listing(e.node, Join(old(out[..olen]), e.name), old(inode), fix);
                recs == old(recs) + rs && inode == old(inode) + |rs|
      decreases Height(e.node), 1
    {
      AppendName(inp, ilen, e.name);
      var m := ilen + 1 + |e.name|;
      var n := Extend(olen, e.name);
      ok := Archive(e.node, m, n);
      if ok {
        assert inp[..m][..ilen] == inp[..ilen] && out[..n][..olen] == out[..olen];
        inp[ilen], out[olen] := 0, 0;
      }
    }

    /** _archive_dir on a directory that can be opened; false where the program dies.  The path buffers are as
        before. */
    method ArchiveDir(ilen: nat, olen: nat, ghost rs: seq<Record>) returns (ok: bool)
      requires Valid() && Holds(ilen, olen) && fs(inp[..ilen]).Dir?
      requires forall e | e in fs(inp[..ilen]).entries :: StorableEntry(fs, inp[..ilen], e, olen)
      requires rs == Listings(Chosen(fs(inp[..ilen]).entries), out[..olen], inode, fix)
      modifies this`total, this`output, this`inode, this`recs, inp, out
      ensures Valid()
      ensures ok <==> forall e | e in old(fs(inp[..ilen]).entries) && Wanted(e.name) :: Supported(e.node)
      ensures ok ==> Restored(ilen, olen)
      ensures ok ==> recs == old(recs) + rs && inode == old(inode) + |rs|
      decreases Heights(fs(inp[..ilen]).entries), 4
    {
      var entries := fs(inp[..ilen]).entries;
      var names := ReadNames(entries);
      HeightsChosen(entries);
      ChosenMembers(entries);
      ok := ArchiveNames(names, ilen, olen);
    }

    method ArchiveNext(names: seq<Entry>, i: nat, ilen: nat, olen: nat, ghost goal: seq<Record>, ghost last: nat)
      returns (ok: bool)
      requires Valid() && Holds(ilen, olen) && i < |names| && StorableEntry(fs, inp[..ilen], names[i], olen)
      requires Remaining(names[i..], out[..olen], recs, inode, goal, last)
      modifies this`total, this`output, this`inode, this`recs, inp, out
      ensures Valid() && (ok <==> Supported(names[i].node))
      ensures ok ==> Restored(ilen, olen)
      ensures ok ==> Remaining(names[i + 1..], out[..olen], recs, inode, goal, last)
      decreases Height(names[i].node), 2
    {
      RemainingStep(names[i..], out[..olen], recs, inode, goal, last);
      assert names[i..][1..] == names[i + 1..];
      ok := ArchiveEntry(names[i], ilen, olen);
    }

    /** The loop of _archive_dir. */
    method ArchiveNames(names: seq<Entry>, ilen: nat, olen: nat) returns (ok: bool)
      requires Valid() && Holds(ilen, olen) && (forall e | e in names :: StorableEntry(fs, inp[..ilen], e, olen))
      modifies this`total, this`output, this`inode, this`recs, inp, out
      ensures Valid()
      ensures ok <==> forall e | e in names :: Supported(e.node)
      ensures ok ==> Restored(ilen, olen)
      ensures ok ==> var rs := Listings(names, old(out[..olen]), old(inode), fix);
                recs == old(recs) + rs && inode == old(inode) + |rs|
      decreases Heights(names), 3
    {
      ghost var from, path := inp[..ilen], out[..olen];
      ghost var rs := Listings(names, path, inode, fix);
      ghost var goal, last := recs + rs, inode + |rs|;
      ok := true;
      var i := 0;
      assert names[0..] == names;
      while i < |names|
        invariant 0 <= i <= |names| && Valid() && Holds(ilen, olen) && inp[..ilen] == from && out[..olen] == path
        invariant Remaining(names[i..], path, recs, inode, goal, last)
        invariant forall k :: 0 <= k < i ==> Supported(names[k].node)
      {
        HeightsBound(names, names[i]);
        ok := ArchiveNext(names, i, ilen, olen, goal, last);
        if !ok { return; }
        i := i + 1;
      }
    }

    /** After these entries the list of records and the inode counter will be so. */
    ghost predicate Remaining(es: seq<Entry>, path: seq<byte>, rs: seq<Record>, ino: nat,
                              goal: seq<Record>, last: nat)
    {
      var more := Listings(es, path, ino, fix);
      rs + more == goal && ino + |more| == last
    }

    lemma {:induction false} RemainingStep(es: seq<Entry>, path: seq<byte>, rs: seq<Record>, ino: nat,
                                           goal: seq<Record>, last: nat)
      requires es != [] && Remaining(es, path, rs, ino, goal, last)
      ensures var r := Listing(es[0].node, Join(path, es[0].name), ino, fix);
              Remaining(es[1..], path, rs + r, ino + |r|, goal, last)
    {
      ListingsStep(es, path, ino, fix);
      var r := Listing(es[0].node, Join(path, es[0].name), ino, fix);
      var more := Listings(es[1..], path, ino + |r|, fix);
      assert rs + (r + more) == rs + r + more;
    }

    /** _archive on what is found at the path in the buffer; false where the program dies. */
    method Archive(ghost n: Node, ilen: nat, olen: nat) returns (ok: bool)
      requires Valid() && Holds(ilen, olen) && Storable(fs, inp[..ilen], n, olen)
      modifies this`total, this`output, this`inode, this`recs, inp, out
      ensures Valid()
      ensures ok <==> Supported(n)
      ensures ok ==> Restored(ilen, olen)
      ensures ok ==> var rs := Listing(n, old(out[..olen]), old(inode), fix);
                recs == old(recs) + rs && inode == old(inode) + |rs|
      decreases Height(n), 0
    {
      var found := fs(inp[..ilen]);
      if found.File? || found.Link? {
        EjectLeaf(found, olen);
        ok := true;
      } else if found.Dir? {
        ok := ArchiveSubtree(n, ilen, olen);
      } else {
        ok := false;
      }
    }

    /** The directory case of _archive. */
    method ArchiveSubtree(ghost n: Node, ilen: nat, olen: nat) returns (ok: bool)
      requires Valid() && Holds(ilen, olen) && Storable(fs, inp[..ilen], n, olen) && n.Dir?
      modifies this`total, this`output, this`inode, this`recs, inp, out
      ensures Valid()
      ensures ok <==> Supported(n)
      ensures ok ==> Restored(ilen, olen)
      ensures ok ==> var rs := Listing(n, old(out[..olen]), old(inode), fix);
                recs == old(recs) + rs && inode == old(inode) + |rs|
      decreases Heights(n.entries), 6
    {
      ListingDir(n, out[..olen], inode, fix);
      var mode := fs(inp[..ilen]).mode;
      ok := ArchiveTree(mode, ilen, olen, Listings(Chosen(n.entries), out[..olen], inode + 1, fix));
    }

    /** The file and link cases of _archive. */
    method EjectLeaf(n: Node, olen: nat)
      requires Valid() && HoldsPath(out, olen) && (n.File? || n.Link?) && (n.File? ==> |n.data| < WORD)
      modifies this`total, this`output, this`inode, this`recs
      ensures Valid() && inode == old(inode) + 1
      ensures recs == old(recs) + Listing(n, out[..olen], old(inode), fix)
      ensures |Listing(n, out[..olen], old(inode), fix)| == 1
    {
      ListingLeaf(n, out[..olen], inode, fix);
      Eject(n.mode, olen, if n.File? then n.data else Truncated(n.target));
    }

    /** _eject_trailer. */
    method EjectTrailer() returns (ghost t: Record, ghost k: nat)
      requires Valid()
      modifies this, out
      ensures total == |output| && total % 256 == 0
      ensures Printable(t) && t.name == TRAILER && output == Emitted(old(recs) + [t]) + Zeros(k)
    {
      PutName(out, 0, TRAILER);
      assert out[..10] == out[0..10];
      Eject(0, 10, []);
      t := recs[|recs| - 1];
      k := PadToBlock();
    }

    /** The directories on the command line, each with archive().  `fits` and `good` say which are storable and
        which are supported, and `gather` what their records are. */
    method ArchiveArgs(args: seq<Arg>, ghost list: (Arg, nat) -> seq<Record>, ghost fits: Arg -> bool,
                       ghost good: Arg -> bool, ghost gather: seq<Arg> -> seq<Record>) returns (ok: bool)
      requires Valid() && recs == [] == gather([]) && inode == FIRST_INODE
      requires Judges(fits, good, fs) && Lists(list, fs, fix)
      requires forall i :: 0 <= i < |args| ==> fits(args[i]) && GathersNext(gather, list, args, i)
      modifies this`total, this`output, this`inode, this`recs, inp, out
      ensures Valid()
      ensures ok <==> forall i :: 0 <= i < |args| ==> good(args[i])
      ensures ok ==> recs == gather(args)
    {
      ok := true;
      for i := 0 to |args|
        invariant Valid() && ok && inode == FIRST_INODE + |recs| && recs == gather(args[..i])
        invariant forall k :: 0 <= k < i ==> good(args[k])
      {
        assert GathersNext(gather, list, args, i) && JudgesArg(fits, good, fs, args[i]);
        ok := ArchiveArg(args[i], list);
        if !ok { return; }
      }
      assert args[..|args|] == args;
    }

    /** archive(). */
    method ArchiveArg(a: Arg, ghost list: (Arg, nat) -> seq<Record>) returns (ok: bool)
      requires Valid() && StorableArg(fs, a) && Lists(list, fs, fix)
      modifies this`total, this`output, this`inode, this`recs, inp, out
      ensures Valid()
      ensures ok <==> SupportedArg(fs, a)
      ensures ok ==> var rs := list(a, old(inode));
                recs == old(recs) + rs && inode == old(inode) + |rs|
    {
      PutName(inp, 0, a.start);
      PutName(out, 0, a.prefix);
      assert inp[..|a.start|] == inp[0..|a.start|] && out[..|a.prefix|] == out[0..|a.prefix|];
      assert ListsArg(list, fs, fix, a, inode);
      if !fs(inp[..|a.start|]).Dir? { return false; }
      ok := ArchiveDir(|a.start|, |a.prefix|, list(a, inode));
    }

    /** The whole program: for every list of directory trees it supports, what it prints reads back
        as the listing of the trees, up to an entry called like the trailer, and fills blocks of
        256 bytes. */
    method Run(args: seq<Arg>) returns (ok: bool)
      requires Valid() && recs == [] && inode == FIRST_INODE
      requires forall i :: 0 <= i < |args| ==> StorableArg(fs, args[i])
      modifies this, inp, out
      ensures ok <==> forall i :: 0 <= i < |args| ==> SupportedArg(fs, args[i])
      ensures ok ==> Decode(output) == CpioFormat.Archive(UpToTrailer(ListingOf(fs, args, FIRST_INODE, fix)))
      ensures ok ==> |output| % 256 == 0
    {
      ghost var list := ArgListing(fs, fix);
      assert Lists(list, fs, fix) by {
        forall a, ino: nat ensures ListsArg(list, fs, fix, a, ino) { }
      }
      ghost var fits, good := (a: Arg) => StorableArg(fs, a), (a: Arg) => SupportedArg(fs, a);
      assert Judges(fits, good, fs) by {
        forall a ensures JudgesArg(fits, good, fs, a) { }
      }
      ghost var gather := (xs: seq<Arg>) => Gather(list, xs, FIRST_INODE);
      forall i | 0 <= i < |args| ensures GathersNext(gather, list, args, i) { GatherSnoc(list, args, i, FIRST_INODE); }
      ok := ArchiveArgs(args, list, fits, good, gather);
      if ok {
        ghost var rs := recs;
        ghost var t, k := EjectTrailer();
        DecodeEmitted(rs, t, Zeros(k));
      }
    }

    /** A header, and then what is below it. */
    method ArchiveTree(mode: nat, ilen: nat, olen: nat, ghost below: seq<Record>) returns (ok: bool)
      requires Valid() && Holds(ilen, olen) && fs(inp[..ilen]).Dir?
      requires forall e | e in fs(inp[..ilen]).entries :: StorableEntry(fs, inp[..ilen], e, olen)
      requires below == Listings(Chosen(fs(inp[..ilen]).entries), out[..olen], inode + 1, fix)
      modifies this`total, this`output, this`inode, this`recs, inp, out
      ensures Valid()
      ensures ok <==> forall e | e in old(fs(inp[..ilen]).entries) && Wanted(e.name) :: Supported(e.node)
      ensures ok ==> Restored(ilen, olen)
      ensures ok ==> recs == old(recs) + ([Head(old(out[..olen]), mode, old(inode), fix)] + below)
      ensures ok ==> inode == old(inode) + 1 + |below|
      decreases Heights(fs(inp[..ilen]).entries), 5
    {
      Eject(mode, olen, []);
      Join3(old(recs), Head(out[..olen], mode, old(inode), fix), below);
      ok := ArchiveDir(ilen, olen, below);
    }
  }

  /** A path of this length, as a C string. */
  ghost predicate HoldsPath(buf: array<byte>, len: nat)
    reads buf
  {
    len < buf.Length && buf[len] == 0 && 0 !in buf[..len]
  }

  /** memcpy of a name with its NUL into a path buffer. */
  method PutName(buf: array<byte>, at: nat, name: seq<byte>)
    requires at + |name| < buf.Length
    modifies buf
    ensures buf[..at] == old(buf[..at]) && buf[at..at + |name|] == name && buf[at + |name|] == 0
  {
    forall i | 0 <= i < |name| { buf[at + i] := name[i]; }
    buf[at + |name|] := 0;
  }

  /** A slash and a name behind a path. */
  method AppendName(buf: array<byte>, len: nat, name: seq<byte>)
    requires HoldsPath(buf, len) && 0 !in name && len + 1 + |name| < buf.Length
    modifies buf
    ensures HoldsPath(buf, len + 1 + |name|) && buf[..len + 1 + |name|] == old(buf[..len]) + [SLASH] + name
    ensures buf[..len] == old(buf[..len])
  {
    buf[len] := SLASH;
    PutName(buf, len + 1, name);
    var n := len + 1 + |name|;
    assert buf[..n] == buf[..len + 1] + buf[len + 1..n];
    assert buf[..len + 1] == buf[..len] + [buf[len]];
  }

  lemma Join3(x: seq<Record>, h: Record, y: seq<Record>)
    ensures x + [h] + y == x + ([h] + y)
  {
  }

  lemma {:induction false} ListingLeaf(n: Node, path: seq<byte>, ino: nat, fix: (seq<byte>, nat) -> nat)
    requires n.File? || n.Link?
    ensures Listing(n, path, ino, fix) ==
            [Record(ino % WORD, fix(path, n.mode) % WORD, path, if n.File? then n.data else Truncated(n.target))]
  {
  }

  /** A file is listed with its contents, a link with its target, cut to the size of the buffer that readlink
      is given. */
  lemma LeafIsListed(n: Node, path: seq<byte>, ino: nat, fix: (seq<byte>, nat) -> nat)
    requires n.File? || n.Link?
    ensures var rs := Listing(n, path, ino, fix);
            && |rs| == 1 && rs[0].ino == ino % WORD && rs[0].mode == fix(path, n.mode) % WORD && rs[0].name == path
            && (n.File? ==> rs[0].data == n.data)
            && (n.Link? ==> rs[0].data <= n.target && (|n.target| <= 1024 ==> rs[0].data == n.target)
                            && (|n.target| > 1024 ==> |rs[0].data| == 1024))
  {
    ListingLeaf(n, path, ino, fix);
  }

  lemma {:induction false} WalksStep(pick: seq<Entry> -> seq<Entry>, es: seq<Entry>, path: seq<byte>, ino: nat,
                                     fix: (seq<byte>, nat) -> nat)
    requires es != [] && Shrinks(pick)
    ensures var rs := Walk(pick, es[0].node, Join(path, es[0].name), ino, fix);
            Walks(pick, es, path, ino, fix) == rs + Walks(pick, es[1..], path, ino + |rs|, fix)
  {
  }

  lemma {:induction false} ListingsStep(es: seq<Entry>, path: seq<byte>, ino: nat, fix: (seq<byte>, nat) -> nat)
    requires es != []
    ensures var rs := Listing(es[0].node, Join(path, es[0].name), ino, fix);
            Listings(es, path, ino, fix) == rs + Listings(es[1..], path, ino + |rs|, fix)
  {
    ChosenShrinks();
    WalksStep(Chosen, es, path, ino, fix);
  }

  lemma {:induction false} ListingDir(n: Node, path: seq<byte>, ino: nat, fix: (seq<byte>, nat) -> nat)
    requires n.Dir?
    ensures Listing(n, path, ino, fix) ==
            [Head(path, n.mode, ino, fix)] + Listings(Chosen(n.entries), path, ino + 1, fix)
  {
  }

  /** A small tree: the entries come sorted, a directory before what is in it, with paths and inode numbers
      that go on. */
  lemma SmallTree(tree: Node, a: Entry, b: Entry, c: Entry, dot: Entry, path: seq<byte>, fix: (seq<byte>, nat) -> nat)
    requires a.name == [97] && b.name == [98] && c.name == [99] && dot.name == [46]
    requires a.node.File? && c.node.File? && b.node.Dir? && b.node.entries == [a]
    requires tree.Dir? && tree.entries == [c, dot, b] && path != []
    ensures var pb, pa, pc := path + [47, 98], path + [47, 98, 47, 97], path + [47, 99];
            Listing(tree, path, 300000, fix) ==
            [Record(300000, fix(path, tree.mode) % WORD, path, [])]
            + ([Record(300001, fix(pb, b.node.mode) % WORD, pb, []), Record(300002, fix(pa, a.node.mode) % WORD, pa, a.node.data)]
               + [Record(300003, fix(pc, c.node.mode) % WORD, pc, c.node.data)])
  {
    SmallPaths(path);
    var pb, pc := path + [47, 98], path + [47, 99];
    SmallDir(b.node, a, pb, 300001, fix);
    ListingLeaf(c.node, pc, 300003, fix);
    var inB := Listing(b.node, pb, 300001, fix);
    assert |inB| == 2;
    SmallTop(tree, b, c, dot, path, 300000, fix, inB);
  }

  lemma SmallPaths(path: seq<byte>)
    requires path != []
    ensures Join(path, [98]) == path + [47, 98] && Join(path, [99]) == path + [47, 99]
    ensures Join(path + [47, 98], [97]) == path + [47, 98, 47, 97]
  {
  }

  lemma SmallTop(tree: Node, b: Entry, c: Entry, dot: Entry, path: seq<byte>, ino: nat, fix: (seq<byte>, nat) -> nat,
                 inB: seq<Record>)
    requires b.name == [98] && c.name == [99] && dot.name == [46] && tree.Dir? && tree.entries == [c, dot, b]
    requires inB == Listing(b.node, Join(path, b.name), ino + 1, fix)
    ensures Listing(tree, path, ino, fix) ==
            [Head(path, tree.mode, ino, fix)] + (inB + Listing(c.node, Join(path, c.name), ino + 1 + |inB|, fix))
  {
    ChosenThree(b, c, dot);
    ListingDir(tree, path, ino, fix);
    ListingsStep([b, c], path, ino + 1, fix);
    assert [b, c][1..] == [c];
    ListingsOne(c, path, ino + 1 + |inB|, fix);
  }

  lemma SmallDir(n: Node, a: Entry, path: seq<byte>, ino: nat, fix: (seq<byte>, nat) -> nat)
    requires n.Dir? && n.entries == [a] && a.name == [97] && a.node.File? && ino + 1 < WORD
    ensures var pa := Join(path, a.name);
            Listing(n, path, ino, fix) == [Record(ino, fix(path, n.mode) % WORD, path, []),
                                           Record(ino + 1, fix(pa, a.node.mode) % WORD, pa, a.node.data)]
  {
    ChosenOne(a);
    ListingDir(n, path, ino, fix);
    ListingsOne(a, path, ino + 1, fix);
    ListingLeaf(a.node, Join(path, a.name), ino + 1, fix);
  }

  lemma ListingsOne(e: Entry, path: seq<byte>, ino: nat, fix: (seq<byte>, nat) -> nat)
    ensures Listings([e], path, ino, fix) == Listing(e.node, Join(path, e.name), ino, fix)
  {
    ListingsStep([e], path, ino, fix);
    assert [e][1..] == [];
  }

  lemma ChosenOne(a: Entry)
    requires Wanted(a.name)
    ensures Chosen([a]) == [a]
  {
    assert [a][1..] == [] && Keep([a]) == [a] + Keep([]) == [a];
    assert Sort([a]) == Insert(a, Sort([])) == [a];
  }

  lemma ChosenThree(b: Entry, c: Entry, dot: Entry)
    requires b.name == [98] && c.name == [99] && dot.name == [46]
    ensures Chosen([c, dot, b]) == [b, c]
  {
    assert [c, dot, b][1..] == [dot, b] && [dot, b][1..] == [b] && [b][1..] == [] && [c, b][1..] == [b];
    assert Keep([b]) == [b] && Keep([dot, b]) == [b] && Keep([c, dot, b]) == [c] + [b] == [c, b];
    assert Sort([b]) == [b] && Before([98], [99]);
  }

  lemma {:induction false} KeepSnoc(es: seq<Entry>, i: nat)
    requires i < |es|
    ensures Keep(es[..i + 1]) == Keep(es[..i]) + if Wanted(es[i].name) then [es[i]] else []
  {
    KeepAppend(es[..i], [es[i]]);
    assert es[..i + 1] == es[..i] + [es[i]];
  }

  lemma {:induction false} KeepAppend(x: seq<Entry>, y: seq<Entry>)
    ensures Keep(x + y) == Keep(x) + Keep(y)
  {
    if x == [] {
      assert x + y == y;
    } else {
      KeepAppend(x[1..], y);
      assert (x + y)[1..] == x[1..] + y;
      assert Keep(x + y) == (if Wanted(x[0].name) then [x[0]] else []) + Keep(x[1..] + y);
    }
  }

  lemma EjectedIs(t0: nat, r: Record, before: seq<byte>, after: seq<byte>)
    requires after == before + Zeros(Gap(t0)) + Header(r) + r.name + [0]
                      + Zeros(Gap(NameEnd(t0 + Gap(t0), r))) + r.data
    ensures after == before + Ejected(t0, r)
  {
    var z, z' := Zeros(Gap(t0)), Zeros(Gap(NameEnd(t0 + Gap(t0), r)));
    assert r.data + [] == r.data;
    Regroup(before + z + Header(r) + r.name + [0], z', r.data);
    Regroup(before + z + Header(r) + r.name, [0], z' + r.data);
    Regroup(before + z + Header(r), r.name, [0] + (z' + r.data));
    Regroup(before + z, Header(r), r.name + ([0] + (z' + r.data)));
    Regroup(before, z, Header(r) + (r.name + ([0] + (z' + r.data))));
  }

  lemma Regroup(x: seq<byte>, y: seq<byte>, z: seq<byte>)
    ensures x + y + z == x + (y + z)
  {
  }
}
