/** Which transport a serial number or a qualifier selects, and the qualifiers that listings print. */
module Selection {

  /** A C string. */
  type CString = s: string | '\0' !in s

  datatype Option<T> = None | Some(value: T)

  datatype ConnState = Offline | Bootloader | Device | Recovery | Host | NoPerm | Sideload | Unauthorized

  datatype Kind = Usb | Local | Any | HostKind

  datatype Transport = Transport(state: ConnState, kind: Kind, serial: Option<CString>, devpath: Option<CString>,
                                 product: Option<CString>, model: Option<CString>, device: Option<CString>)

  // ---------------------------------------------------------------- qualifiers

  predicate Invalid(c: char) { !('A' <= c <= 'Z' || 'a' <= c <= 'z' || '0' <= c <= '9') }

  /** The ASCII letters and digits stay, everything else is replaced. */
  lemma InvalidExactly(c: char)
    ensures Invalid(c) <==> !(48 <= c as int <= 57 || 65 <= c as int <= 90 || 97 <= c as int <= 122)
  {
  }

  function Clean(s: string, sanitize: bool): (r: string)
    ensures |r| == |s|
    ensures forall i :: 0 <= i < |s| ==> r[i] == if sanitize && Invalid(s[i]) then '_' else s[i]
  {
    if s == "" then "" else [if sanitize && Invalid(s[0]) then '_' else s[0]] + Clean(s[1..], sanitize)
  }

  /** What a qualifier that matches looks like. */
  predicate Matches(text: CString, prefix: CString, qual: Option<CString>, sanitize: bool)
  {
    if text == "" then qual == None || qual.value == ""
    else qual.Some? && text == prefix + Clean(qual.value, sanitize)
  }

  function At(s: CString, i: nat): char { if i < |s| then s[i] else '\0' }

  /** qual_match: character by character, with no length known beforehand. */
  method QualMatch(text: CString, prefix: CString, qual: Option<CString>, sanitize: bool) returns (r: bool)
    ensures r == Matches(text, prefix, qual, sanitize)
  {
    if text == "" { return qual == None || qual.value == ""; }
    if qual == None { return false; }
    r := MatchPrefix(text, prefix);
    if r { r := MatchRest(text, |prefix|, qual.value, sanitize); }
    assert r ==> text == text[..|prefix|] + text[|prefix|..];
    if text == prefix + Clean(qual.value, sanitize) {
      assert text[..|prefix|] == prefix && text[|prefix|..] == Clean(qual.value, sanitize);
    }
  }

  /** The first loop of qual_match. */
  method MatchPrefix(text: CString, prefix: CString) returns (r: bool)
    ensures r == (prefix <= text)
  {
    var i := 0;
    while i < |prefix|
      invariant i <= |prefix| && i <= |text| && text[..i] == prefix[..i]
    {
      if prefix[i] != At(text, i) { return false; }
      i := i + 1;
    }
    r := true;
  }

  /** The second loop, and the test for the end of the text. */
  method MatchRest(text: CString, i: nat, q: CString, sanitize: bool) returns (r: bool)
    requires i <= |text|
    ensures r == (text[i..] == Clean(q, sanitize))
  {
    var j := 0;
    ghost var rest, clean := text[i..], Clean(q, sanitize);
    while j < |q|
      invariant j <= |q| && j <= |rest| && forall k :: 0 <= k < j ==> rest[k] == clean[k]
    {
      var ch := if sanitize && Invalid(q[j]) then '_' else q[j];
      assert clean[j] == ch;
      if ch != At(text, i + j) {
        assert j < |rest| ==> rest[j] != clean[j];
        return false;
      }
      j := j + 1;
    }
    assert |rest| == j ==> rest == clean;
    return At(text, i + j) == '\0';
  }

  /** What add_qual prints for a qualifier that is set. */
  function Printed(prefix: CString, qual: Option<CString>, sanitize: bool): string
  {
    if qual == None || qual.value == "" then "" else prefix + Clean(qual.value, sanitize)
  }

  /** add_qual, into a buffer with room for the text and its terminator. */
  method AddQual(buf: array<char>, pos: nat, prefix: CString, qual: Option<CString>, sanitize: bool) returns (end: nat)
    requires pos < buf.Length
    requires qual.Some? ==> pos + |prefix| + |qual.value| < buf.Length
    modifies buf
    ensures end == pos + |Printed(prefix, qual, sanitize)| < buf.Length
    ensures buf[..pos] == old(buf[..pos]) && buf[pos..end] == Printed(prefix, qual, sanitize)
  {
    if qual == None || qual.value == "" { return pos; }
    var s := prefix + qual.value;
    end := pos + |s|;
    forall i | 0 <= i <= |s| { buf[pos + i] := if i < |s| then s[i] else '\0'; }
    if sanitize {
      var cp := pos + |prefix|;
      while cp < end
        invariant pos + |prefix| <= cp <= end
        invariant forall i :: 0 <= i < pos ==> buf[i] == old(buf[i])
        invariant forall i :: pos <= i < cp ==> buf[i] == Printed(prefix, qual, sanitize)[i - pos]
        invariant forall i :: cp <= i < end ==> buf[i] == s[i - pos]
      {
        if Invalid(buf[cp]) { buf[cp] := '_'; }
        cp := cp + 1;
      }
    }
    assert forall i :: pos <= i < end ==> buf[i] == Printed(prefix, qual, sanitize)[i - pos];
  }

  // ---------------------------------------------------------------- selection

  /** What the caller asks for: a serial number or qualifier, or else a kind of transport. */
  datatype Query = Query(serial: Option<CString>, kind: Kind)

  predicate Named(t: Transport, serial: CString)
  {
    || t.serial == Some(serial)
    || t.devpath == Some(serial)
    || Matches(serial, "product:", t.product, false)
    || Matches(serial, "model:", t.model, true)
    || Matches(serial, "device:", t.device, false)
  }

  predicate OfKind(t: Transport, kind: Kind)
  {
    match kind
    case Usb => t.kind == Usb
    case Local => t.kind == Local
    case Any => true
    case HostKind => false
  }

  /** A transport that the query names and that may be used at all. */
  predicate Candidate(t: Transport, q: Query)
  {
    t.state != NoPerm && if q.serial.Some? then Named(t, q.serial.value) else OfKind(t, q.kind)
  }

  datatype Error = NotFound | NoPermission | MoreThanOne | NotAuthorized | IsOffline | WrongState

  datatype Pick = Found(index: nat) | Failed(error: Error)

  ghost predicate Sole(ts: seq<Transport>, q: Query, i: nat)
  {
    i < |ts| && Candidate(ts[i], q) && forall j :: 0 <= j < |ts| && Candidate(ts[j], q) ==> j == i
  }

  ghost predicate Two(ts: seq<Transport>, q: Query)
  {
    exists i, j :: 0 <= i < j < |ts| && Candidate(ts[i], q) && Candidate(ts[j], q)
  }

  /** One pass of acquire_one_transport.  Without a required state it finds a transport exactly when that
      is the only candidate and is neither offline nor unauthorized; each error has its own exact cause. */
  ghost predicate Picked(ts: seq<Transport>, q: Query, required: Option<ConnState>, r: Pick)
  {
    match r
    case Found(i) =>
      Sole(ts, q, i) && ts[i].state != Offline && ts[i].state != Unauthorized
      && (required.Some? ==> ts[i].state == required.value)
    case Failed(e) =>
      match e {
        case MoreThanOne => Two(ts, q)
        case NotAuthorized => exists i: nat :: Sole(ts, q, i) && ts[i].state == Unauthorized
        case IsOffline => exists i: nat :: Sole(ts, q, i) && ts[i].state == Offline
        case WrongState =>
          exists i: nat :: Sole(ts, q, i) && ts[i].state != Offline && ts[i].state != Unauthorized
                      && required.Some? && required.value != ts[i].state
        case NoPermission =>
          (forall t :: t in ts ==> !Candidate(t, q)) && exists t :: t in ts && t.state == NoPerm
        case NotFound =>
          (forall t :: t in ts ==> !Candidate(t, q)) && forall t :: t in ts ==> t.state != NoPerm
      }
  }

  method IsCandidate(t: Transport, q: Query) returns (b: bool)
    requires t.state != NoPerm
    ensures b == Candidate(t, q)
  {
    if q.serial.None? { return OfKind(t, q.kind); }
    var s := q.serial.value;
    if t.serial == Some(s) || t.devpath == Some(s) { return true; }
    b := QualMatch(s, "product:", t.product, false);
    if !b { b := QualMatch(s, "model:", t.model, true); }
    if !b { b := QualMatch(s, "device:", t.device, false); }
  }

  method Scan(ts: seq<Transport>, q: Query) returns (found: Option<nat>, error: Error)
    ensures found.Some? ==> Sole(ts, q, found.value)
    ensures found.None? ==> error in {MoreThanOne, NoPermission, NotFound} && Picked(ts, q, None, Failed(error))
  {
    found, error := None, NotFound;
    var i := 0;
    while i < |ts|
      invariant i <= |ts| && error in {NoPermission, NotFound}
      invariant found.Some? ==> Sole(ts[..i], q, found.value)
      invariant found.None? ==> forall t :: t in ts[..i] ==> !Candidate(t, q)
      invariant error == NoPermission <==> exists t :: t in ts[..i] && t.state == NoPerm
    {
      assert ts[..i + 1] == ts[..i] + [ts[i]];
      if ts[i].state == NoPerm {
        error := NoPermission;
        assert ts[i] in ts[..i + 1];
      } else {
        var b := IsCandidate(ts[i], q);
        if b {
          if found.Some? {
            assert ts[..i][found.value] == ts[found.value];
            return None, MoreThanOne;
          }
          found := Some(i);
        }
      }
      i := i + 1;
    }
    assert ts[..i] == ts;
  }

  method PickOne(ts: seq<Transport>, q: Query, required: Option<ConnState>) returns (r: Pick)
    ensures Picked(ts, q, required, r)
  {
    var found, error := Scan(ts, q);
    if found.None? { return Failed(error); }
    var t := ts[found.value];
    if t.state == Unauthorized { return Failed(NotAuthorized); }
    if t.state == Offline { return Failed(IsOffline); }
    if required.Some? && t.state != required.value { return Failed(WrongState); }
    return Found(found.value);
  }

  /** The causes exclude each other, so a pass has one possible outcome. */
  lemma PickedIsUnique(ts: seq<Transport>, q: Query, required: Option<ConnState>, r: Pick, r': Pick)
    requires Picked(ts, q, required, r) && Picked(ts, q, required, r')
    ensures r == r'
  {
    forall i: nat, j: nat | Sole(ts, q, i) && Sole(ts, q, j) ensures i == j { }
    if exists i: nat :: Sole(ts, q, i) {
      var i: nat :| Sole(ts, q, i);
      assert ts[i] in ts && !Two(ts, q);
    }
    if Two(ts, q) {
      var i, j :| 0 <= i < j < |ts| && Candidate(ts[i], q) && Candidate(ts[j], q);
      assert ts[i] in ts;
    }
  }

  /** A part of a listing's line, without its leading blank. */
  predicate ListedAs(t: Transport, text: CString)
  {
    || " " + text == Printed(" ", t.devpath, false)
    || " " + text == Printed(" product:", t.product, false)
    || " " + text == Printed(" model:", t.model, true)
    || " " + text == Printed(" device:", t.device, false)
  }

  lemma ListedIsNamed(t: Transport, text: CString)
    requires text != "" && ListedAs(t, text)
    ensures Named(t, text)
  {
    if " " + text == Printed(" ", t.devpath, false) {
      assert " " + "" == " ";
      PrintedMatches(text, "", t.devpath, false);
      assert text == t.devpath.value;
    } else if " " + text == Printed(" product:", t.product, false) {
      assert " product:" == " " + "product:";
      PrintedMatches(text, "product:", t.product, false);
    } else if " " + text == Printed(" model:", t.model, true) {
      assert " model:" == " " + "model:";
      PrintedMatches(text, "model:", t.model, true);
    } else {
      assert " device:" == " " + "device:";
      PrintedMatches(text, "device:", t.device, false);
    }
  }

  /** A qualifier as a listing prints it names its own transport, and when no other usable transport goes
      by it, asking for it yields that transport. */
  lemma PrintedSelects(ts: seq<Transport>, i: nat, text: CString, r: Pick)
    requires i < |ts| && ts[i].state !in {NoPerm, Offline, Unauthorized}
    requires text != "" && ListedAs(ts[i], text)
    requires forall j :: 0 <= j < |ts| && j != i && ts[j].state != NoPerm ==> !Named(ts[j], text)
    requires Picked(ts, Query(Some(text), Any), None, r)
    ensures r == Found(i)
  {
    ListedIsNamed(ts[i], text);
    var q := Query(Some(text), Any);
    assert Sole(ts, q, i);
    PickedIsUnique(ts, q, None, r, Found(i));
  }

  /** Who goes by a text: by its serial number, or by a part of its line in a listing, or by the bare word for
      a qualifier that is set but empty. */
  lemma NamedExactly(t: Transport, text: CString)
    requires text != ""
    ensures Named(t, text) <==>
            || t.serial == Some(text)
            || ListedAs(t, text)
            || (text == "product:" && IsEmpty(t.product))
            || (text == "model:" && IsEmpty(t.model))
            || (text == "device:" && IsEmpty(t.device))
  {
    assert " " + "" == " " && " product:" == " " + "product:";
    assert " model:" == " " + "model:" && " device:" == " " + "device:";
    PrintedMatches(text, "", t.devpath, false);
    if t.devpath.Some? { assert "" + Clean(t.devpath.value, false) == t.devpath.value; }
    PrintedMatches(text, "product:", t.product, false);
    PrintedMatches(text, "model:", t.model, true);
    PrintedMatches(text, "device:", t.device, false);
    EmptyQual(text, "product:", t.product, false);
    EmptyQual(text, "model:", t.model, true);
    EmptyQual(text, "device:", t.device, false);
  }

  predicate IsEmpty(qual: Option<CString>) { qual.Some? && qual.value == "" }

  lemma EmptyQual(text: CString, prefix: CString, qual: Option<CString>, sanitize: bool)
    requires text != ""
    ensures IsEmpty(qual) ==> (Matches(text, prefix, qual, sanitize) <==> text == prefix)
  {
    assert prefix + "" == prefix;
  }

  /** The empty text goes by whoever lacks a qualifier, or has an empty one. */
  lemma NamedEmpty(t: Transport)
    ensures Named(t, "") <==>
            || (t.serial.Some? && t.serial.value == "") || (t.devpath.Some? && t.devpath.value == "")
            || t.product.None? || IsEmpty(t.product) || t.model.None? || IsEmpty(t.model)
            || t.device.None? || IsEmpty(t.device)
  {
  }

  /** Asking for a serial number yields the transport that has it, when no other usable one goes by it. */
  lemma SerialSelects(ts: seq<Transport>, i: nat, serial: CString, r: Pick)
    requires i < |ts| && ts[i].state !in {NoPerm, Offline, Unauthorized} && ts[i].serial == Some(serial)
    requires forall j :: 0 <= j < |ts| && j != i && ts[j].state != NoPerm ==> !Named(ts[j], serial)
    requires Picked(ts, Query(Some(serial), Any), None, r)
    ensures r == Found(i)
  {
    var q := Query(Some(serial), Any);
    assert Sole(ts, q, i);
    PickedIsUnique(ts, q, None, r, Found(i));
  }

  /** Asking for a kind yields the only usable transport of that kind, or the only one at all for any kind. */
  lemma KindSelects(ts: seq<Transport>, i: nat, kind: Kind, r: Pick)
    requires i < |ts| && ts[i].state !in {NoPerm, Offline, Unauthorized} && kind != HostKind
    requires kind == Any || ts[i].kind == kind
    requires forall j :: 0 <= j < |ts| && j != i && ts[j].state != NoPerm ==> kind != Any && ts[j].kind != kind
    requires Picked(ts, Query(None, kind), None, r)
    ensures r == Found(i)
  {
    var q := Query(None, kind);
    assert Sole(ts, q, i);
    PickedIsUnique(ts, q, None, r, Found(i));
  }

  /** Nothing is of the host's kind. */
  lemma HostKindFindsNone(ts: seq<Transport>, r: Pick)
    requires Picked(ts, Query(None, HostKind), None, r)
    ensures r == Failed(NotFound) || r == Failed(NoPermission)
  {
  }

  lemma PrintedMatches(text: CString, prefix: CString, qual: Option<CString>, sanitize: bool)
    requires text != ""
    ensures " " + text == Printed(" " + prefix, qual, sanitize) <==>
            Matches(text, prefix, qual, sanitize) && qual.value != ""
  {
    if qual.Some? {
      var c := Clean(qual.value, sanitize);
      assert (" " + text)[1..] == text;
      assert (" " + prefix + c)[1..] == prefix + c;
      assert " " + (prefix + c) == " " + prefix + c;
    }
  }

  // ---------------------------------------------------------------- waiting

  /** acquire_one_transport asks again when a state is required, unless a kind alone was ambiguous. */
  predicate Settles(r: Pick, q: Query, required: Option<ConnState>)
  {
    r.Found? || required.None? || (q.serial.None? && r.error == MoreThanOne)
  }

  /** Without a required state the first pass decides; with one, a failure is final only if a kind alone was
      ambiguous. */
  lemma SettlesExactly(e: Error, i: nat, q: Query, required: Option<ConnState>)
    ensures Settles(Found(i), q, required)
    ensures required.None? ==> Settles(Failed(e), q, required)
    ensures required.Some? ==> (Settles(Failed(e), q, required) <==> q.serial.None? && e == MoreThanOne)
  {
  }

  /** acquire_one_transport over the lists it finds at its successive passes: the outcome is that of the
      first pass that settles, and all of them are passed over when none does. */
  method AcquireOneTransport(passes: seq<seq<Transport>>, q: Query, required: Option<ConnState>)
    returns (r: Pick, k: nat)
    ensures k <= |passes|
    ensures forall p, r' :: 0 <= p < k && Picked(passes[p], q, required, r') ==> !Settles(r', q, required)
    ensures k < |passes| ==> Picked(passes[k], q, required, r) && Settles(r, q, required)
  {
    k, r := 0, Failed(NotFound);
    while k < |passes|
      invariant k <= |passes|
      invariant forall p, r' :: 0 <= p < k && Picked(passes[p], q, required, r') ==> !Settles(r', q, required)
    {
      r := PickOne(passes[k], q, required);
      if Settles(r, q, required) { return; }
      forall r' | Picked(passes[k], q, required, r') ensures r' == r {
        PickedIsUnique(passes[k], q, required, r, r');
      }
      k := k + 1;
    }
  }
}
