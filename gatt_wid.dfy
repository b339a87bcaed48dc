/**
  The GATT work-item handlers (ptsprojects/mynewt/gatt_wid.py). The test
  tool sends a work-item id and a free-text prompt; the dispatcher calls the
  handler for that id, which scans the prompt for handles, values and service
  UUIDs and checks them against the device's attribute database.

  The device is an abstract attribute database passed in: the value stored at
  each handle, and the primary-service declarations in the order the device
  lists them. Each handler returns its reply (a verdict, None, or the Python
  exception it lets escape) together with the btp commands it sent, in order.
*/
module GattWid {
  import opened Wrappers
  import opened HexText
  import opened Scan

  // ---------------------------------------------------------------------
  // The device and what a handler does to it

  /** A primary-service declaration: its handle and the UUID text btp2uuid makes of its value. */
  datatype ServiceDecl = ServiceDecl(handle: nat, uuid: string)

  datatype AttrDb = AttrDb(values: map<nat, seq<byte>>, services: seq<ServiceDecl>)

  /** The btp commands the handlers send. */
  datatype BtpCall =
    | GapSetConn
    | GapSetGendiscov
    | GapAdvIndOn
    | GattsGetAttrs(typeUuid: string)
    | GattsGetAttrVal(handle: nat)

  /** The exceptions that escape a handler. */
  datatype Error =
    | ValueError  // int('', 16), or a service UUID of the wrong length
    | TypeError   // int(None, 16): a key missing from the parsed parameters
    | BtpError    // the device has no attribute at the handle read

  /** A handler returns True, False or None, or raises. */
  datatype Reply = Returned(value: Option<bool>) | Raised(error: Error)

  datatype Outcome = Outcome(reply: Reply, calls: seq<BtpCall>)

  /** The type UUID of a primary-service declaration. */
  const PrimaryServiceType := "2800"

  /** Reading attribute `h`: its bytes, or BTP failure when the device has none. */
  predicate Stored(db: AttrDb, h: nat) {
    h in db.values
  }

  // ---------------------------------------------------------------------
  // The prompt patterns

  /** Service\s=\s'([0-9a-fA-F]+)' */
  const ServicePattern: Pattern := [Lit("Service"), Space, Lit("="), Space, Lit("'"), Hex, Lit("'")]

  /** (Handle|value)='([0-9a-fA-F]+)' */
  const HandleOrValuePattern: Pattern := [Either("Handle", "value"), Lit("='"), Hex, Lit("'")]

  /** Handle pair = '([0-9a-fA-F]+)'O '([0-9a-fA-F]+)'O */
  const HandlePairPattern: Pattern := [Lit("Handle pair = '"), Hex, Lit("'O '"), Hex, Lit("'O")]

  /** value='([0-9a-fA-F]+)'O */
  const ValuePattern: Pattern := [Lit("value='"), Hex, Lit("'O")]

  lemma PatternsWellFormed()
    ensures WellFormed(ServicePattern) && WellFormed(HandleOrValuePattern)
    ensures WellFormed(HandlePairPattern) && WellFormed(ValuePattern)
  {
  }

  /** What findall yields for each pattern: the number and shape of the groups of each match. */
  lemma ServiceGroups(s: string)
    ensures WellFormed(ServicePattern)
    ensures forall n :: 0 <= n < |FindAll(ServicePattern, s, 0)| ==>
      var g := FindAll(ServicePattern, s, 0)[n]; |g| == 1 && g[0] != [] && IsHex(g[0])
  {
    PatternsWellFormed();
    FindAllFit(ServicePattern, s);
  }

  lemma HandleOrValueGroups(s: string)
    ensures WellFormed(HandleOrValuePattern)
    ensures forall n :: 0 <= n < |FindAll(HandleOrValuePattern, s, 0)| ==>
      var g := FindAll(HandleOrValuePattern, s, 0)[n];
      |g| == 2 && (g[0] == "Handle" || g[0] == "value") && g[1] != [] && IsHex(g[1])
  {
    PatternsWellFormed();
    FindAllFit(HandleOrValuePattern, s);
  }

  lemma HandlePairGroups(s: string)
    ensures WellFormed(HandlePairPattern)
    ensures forall n :: 0 <= n < |FindAll(HandlePairPattern, s, 0)| ==>
      var g := FindAll(HandlePairPattern, s, 0)[n]; |g| == 2 && g[0] != [] && g[1] != [] && IsHex(g[0]) && IsHex(g[1])
  {
    PatternsWellFormed();
    FindAllFit(HandlePairPattern, s);
  }

  lemma ValueGroups(s: string)
    ensures WellFormed(ValuePattern)
    ensures forall n :: 0 <= n < |FindAll(ValuePattern, s, 0)| ==>
      var g := FindAll(ValuePattern, s, 0)[n]; |g| == 1 && g[0] != [] && IsHex(g[0])
  {
    PatternsWellFormed();
    FindAllFit(ValuePattern, s);
  }

  /** re.findall of the Service pattern over the prompt: one non-empty hex group per match. */
  function ServicesFound(desc: string): (found: seq<seq<string>>)
    ensures forall n :: 0 <= n < |found| ==> |found[n]| == 1 && found[n][0] != [] && IsHex(found[n][0])
  {
    ServiceGroups(desc);
    FindAll(ServicePattern, desc, 0)
  }

  // ---------------------------------------------------------------------
  // hdl_wid_1

  /** hdl_wid_1: make the device connectable, general discoverable and advertising; always True. */
  function HdlWid1(desc: string): (o: Outcome)
    ensures o.reply == Returned(Some(true))
    ensures o.calls == [GapSetConn, GapSetGendiscov, GapAdvIndOn]
  {
    Outcome(Returned(Some(true)), [GapSetConn, GapSetGendiscov, GapAdvIndOn])
  }

  // ---------------------------------------------------------------------
  // hdl_wid_17: service UUIDs

  /** Python 2's hex(n) for an int: "0x" and the lower-case digits, no leading zeros. */
  function PyHex(n: nat): (r: string)
    ensures |r| >= 3 && r[..2] == "0x" && IsLowerHex(r[2..]) && IsHex(r[2..]) && HexValue(r[2..]) == n
  {
    var r := "0x" + LowerHex(n);
    assert r[2..] == LowerHex(n);
    r
  }

  /** The 8-4-4-4-12 grouping of a 32-digit UUID text. */
  function Dashed(h: string): (r: string)
    requires |h| == 32
    ensures |r| == 36 && r[8] == '-' && r[13] == '-' && r[18] == '-' && r[23] == '-'
  {
    h[..8] + "-" + h[8..12] + "-" + h[12..16] + "-" + h[16..20] + "-" + h[20..]
  }

  /** The text with its dashes removed. */
  function Undash(r: string): string {
    if r == [] then []
    else if r[0] == '-' then Undash(r[1..])
    else [r[0]] + Undash(r[1..])
  }

  lemma {:induction false} UndashConcat(x: string, y: string)
    ensures Undash(x + y) == Undash(x) + Undash(y)
    decreases |x|
  {
    if x != [] {
      assert (x + y)[1..] == x[1..] + y;
      UndashConcat(x[1..], y);
    } else {
      assert x + y == y;
    }
  }

  lemma {:induction false} UndashHex(h: string)
    requires IsHex(h)
    ensures Undash(h) == h
  {
    if h != [] {
      UndashHex(h[1..]);
      assert h == [h[0]] + h[1..];
    }
  }

  lemma UndashHexThenDash(x: string, y: string)
    requires IsHex(x)
    ensures Undash(x + ("-" + y)) == x + Undash(y)
  {
    UndashConcat(x, "-" + y);
    UndashHex(x);
    assert ("-" + y)[1..] == y;
  }

  lemma DashedGroups(h: string)
    requires |h| == 32
    ensures Dashed(h) == h[..8] + ("-" + (h[8..12] + ("-" + (h[12..16] + ("-" + (h[16..20] + ("-" + h[20..])))))))
  {
  }

  lemma HexGroups(h: string)
    requires |h| == 32 && IsHex(h)
    ensures h == h[..8] + (h[8..12] + (h[12..16] + (h[16..20] + h[20..])))
    ensures IsHex(h[..8]) && IsHex(h[8..12]) && IsHex(h[12..16]) && IsHex(h[16..20]) && IsHex(h[20..])
  {
  }

  /** Removing the dashes from the dashed form gives the 32 digits back. */
  lemma DashedRoundTrip(h: string)
    requires |h| == 32 && IsHex(h)
    ensures Undash(Dashed(h)) == h
  {
    DashedGroups(h);
    HexGroups(h);
    var a, b, c, d, e := h[..8], h[8..12], h[12..16], h[16..20], h[20..];
    calc {
      Undash(Dashed(h));
      Undash(a + ("-" + (b + ("-" + (c + ("-" + (d + ("-" + e))))))));
      { UndashHexThenDash(a, b + ("-" + (c + ("-" + (d + ("-" + e)))))); }
      a + Undash(b + ("-" + (c + ("-" + (d + ("-" + e))))));
      { UndashHexThenDash(b, c + ("-" + (d + ("-" + e)))); }
      a + (b + Undash(c + ("-" + (d + ("-" + e)))));
      { UndashHexThenDash(c, d + ("-" + e)); }
      a + (b + (c + Undash(d + ("-" + e))));
      { UndashHexThenDash(d, e); UndashHex(e); }
      a + (b + (c + (d + e)));
      h;
    }
  }

  /** str(UUID(int=n)): the 32 lower-case digits of n, zero filled, in 8-4-4-4-12 groups. */
  function UuidText(n: nat): (r: string)
    requires n < Pow16(32)
    ensures |r| == 36
  {
    LowerHexDigits(n, 32);
    Dashed(ZeroPad(LowerHex(n), 32))
  }

  /**
    The normalisation hdl_wid_17 applies to a parsed service: a 4-digit id
    becomes hex(int(id, 16)); any other text goes through UUID(hex=...), which
    accepts exactly 32 digits and raises ValueError otherwise (None here).
  */
  function NormaliseService(s: string): (r: Option<string>)
    requires IsHex(s)
    ensures r.Some? <==> |s| == 4 || |s| == 32
  {
    if |s| == 4 then Some(PyHex(HexValue(s)))
    else if |s| == 32 then Some(UuidText(HexValue(s)))
    else None
  }

  /** A 4-digit id becomes "0x" and at most four lower-case digits of the same number, without leading zeros. */
  lemma NormaliseShortId(s: string)
    requires IsHex(s) && |s| == 4
    ensures var r := NormaliseService(s).value;
      3 <= |r| <= 6 && r[..2] == "0x" && IsLowerHex(r[2..]) && IsHex(r[2..])
      && HexValue(r[2..]) == HexValue(s) && (|r| == 3 || r[2] != '0')
  {
    var digits := LowerHex(HexValue(s));
    LowerHexDigits(HexValue(s), 4);
    assert ("0x" + digits)[2..] == digits;
  }

  /** The zero-filled lower-case digits of a 32-digit UUID are its own digits, lower-cased. */
  lemma UuidDigits(s: string)
    requires IsHex(s) && |s| == 32
    ensures |LowerHex(HexValue(s))| <= 32
    ensures ZeroPad(LowerHex(HexValue(s)), 32) == Lower(s)
  {
    var n := HexValue(s);
    LowerHexDigits(n, 32);
    ZeroPadValue(LowerHex(n), 32);
    LowerKeepsValue(s);
    LowerHexCanonical(ZeroPad(LowerHex(n), 32), Lower(s));
  }

  /** A 32-digit UUID becomes its own digits, lower-cased, in 8-4-4-4-12 groups. */
  lemma NormaliseUuid(s: string)
    requires IsHex(s) && |s| == 32
    ensures NormaliseService(s).value == Dashed(Lower(s))
    ensures Undash(NormaliseService(s).value) == Lower(s)
  {
    UuidDigits(s);
    assert NormaliseService(s).value == UuidText(HexValue(s));
    LowerKeepsValue(s);
    DashedRoundTrip(Lower(s));
  }

  /**
    The list comprehension over the parsed services. A service of the wrong
    length raises ValueError (None here) before anything else happens, so which
    one raises does not matter.
  */
  function NormaliseAll(ss: seq<string>): (r: Option<seq<string>>)
    requires forall i :: 0 <= i < |ss| ==> IsHex(ss[i])
    ensures r.Some? <==> forall i :: 0 <= i < |ss| ==> |ss[i]| == 4 || |ss[i]| == 32
    ensures r.Some? ==> |r.value| == |ss| && forall i :: 0 <= i < |ss| ==> NormaliseService(ss[i]) == Some(r.value[i])
  {
    if forall i :: 0 <= i < |ss| ==> |ss[i]| == 4 || |ss[i]| == 32 then
      Some(seq(|ss|, i requires 0 <= i < |ss| => NormaliseService(ss[i]).value))
    else None
  }

  /**
    The services findall returns: the one group of each match.
    Its ensures spell the list out element by element: it is the reference list the loops and handlers are proved against.
  */
  function ServiceTexts(found: seq<seq<string>>): (ss: seq<string>)
    requires forall n :: 0 <= n < |found| ==> |found[n]| == 1
    ensures |ss| == |found| && forall n :: 0 <= n < |found| ==> ss[n] == found[n][0]
  {
    seq(|found|, n requires 0 <= n < |found| => found[n][0])
  }

  /**
    The UUIDs of the device's primary services, in the order the device lists them.
    Its ensures spell the list out element by element: it is the reference list the loops and handlers are proved against.
  */
  function IutUuids(decls: seq<ServiceDecl>): (us: seq<string>)
    ensures |us| == |decls| && forall k :: 0 <= k < |decls| ==> us[k] == decls[k].uuid
  {
    seq(|decls|, k requires 0 <= k < |decls| => decls[k].uuid)
  }

  /**
    The reads hdl_wid_17 makes: the list of primary services, then the value of each declaration.
    Its ensures spell the list out element by element: it is the reference list the loops and handlers are proved against.
  */
  function ServiceReads(decls: seq<ServiceDecl>): (cs: seq<BtpCall>)
    ensures |cs| == |decls| + 1 && cs[0] == GattsGetAttrs(PrimaryServiceType)
    ensures forall k :: 0 <= k < |decls| ==> cs[k + 1] == GattsGetAttrVal(decls[k].handle)
  {
    [GattsGetAttrs(PrimaryServiceType)] + seq(|decls|, k requires 0 <= k < |decls| => GattsGetAttrVal(decls[k].handle))
  }

  /**
    What hdl_wid_17 promises: False without any read when the prompt names no
    service; ValueError, before any read, when a service has neither 4 nor 32
    digits; otherwise, after reading every primary service, True exactly when
    the normalised services, counted with repetition, are among the device's.
  */
  function Wid17Expected(desc: string, db: AttrDb): (o: Outcome)
    ensures o.reply != Returned(None)
  {
    var found := ServicesFound(desc);
    if found == [] then Outcome(Returned(Some(false)), [])
    else
      var pts := NormaliseAll(ServiceTexts(found));
      if pts.None? then Outcome(Raised(ValueError), [])
      else Outcome(Returned(Some(multiset(pts.value) <= multiset(IutUuids(db.services)))), ServiceReads(db.services))
  }

  /** list.remove(x): the list without the first occurrence of x. */
  function RemoveFirst(s: seq<string>, x: string): (r: seq<string>)
    requires x in s
    ensures |r| == |s| - 1 && multiset(r) == multiset(s) - multiset{x}
  {
    if s[0] == x then
      assert s == [s[0]] + s[1..];
      s[1..]
    else
      assert s == [s[0]] + s[1..];
      [s[0]] + RemoveFirst(s[1..], x)
  }

  lemma MissingService(found: multiset<string>, rest: multiset<string>, x: string, pts: seq<string>, i: nat)
    requires i < |pts| && pts[i] == x && x !in rest
    requires multiset(pts[..i]) == found
    ensures !(multiset(pts) <= rest + found)
  {
    assert pts[..i + 1] == pts[..i] + [x];
    assert pts == pts[..i + 1] + pts[i + 1..];
    assert multiset(pts)[x] >= multiset(pts[..i + 1])[x] == found[x] + 1;
  }

  /** Ticking off the i-th tester service moves one copy of it from the device's remaining list to the found ones. */
  lemma TickOff(rest: seq<string>, pts: seq<string>, i: nat, whole: multiset<string>)
    requires i < |pts| && pts[i] in rest && multiset(rest) + multiset(pts[..i]) == whole
    ensures multiset(RemoveFirst(rest, pts[i])) + multiset(pts[..i + 1]) == whole
  {
    assert pts[..i + 1] == pts[..i] + [pts[i]];
  }

  /** A value at two positions of a list is counted twice in its multiset. */
  lemma CountedTwice(pts: seq<string>, i: nat, j: nat)
    requires i < j < |pts| && pts[i] == pts[j]
    ensures multiset(pts)[pts[i]] >= 2
  {
    var u := pts[i];
    assert pts == pts[..j] + pts[j..];
    assert pts[..j][i] == u && pts[j..][0] == u;
    assert multiset(pts)[u] == multiset(pts[..j])[u] + multiset(pts[j..])[u];
  }

  /**
    The first loop of hdl_wid_17: list the primary services, then read each
    declaration and collect its UUID.
  */
  method ReadPrimaryServices(db: AttrDb) returns (iutServices: seq<string>, calls: seq<BtpCall>)
    ensures iutServices == IutUuids(db.services)
    ensures calls == ServiceReads(db.services)
  {
    calls := [GattsGetAttrs(PrimaryServiceType)];
    iutServices := [];
    var k := 0;
    while k < |db.services|
      invariant 0 <= k <= |db.services|
      invariant iutServices == IutUuids(db.services[..k])
      invariant calls == ServiceReads(db.services[..k])
    {
      var decl := db.services[k];
      calls := calls + [GattsGetAttrVal(decl.handle)];
      iutServices := iutServices + [decl.uuid];
      k := k + 1;
    }
    assert db.services[..k] == db.services;
  }

  /**
    The second loop of hdl_wid_17: tick off each tester service, removing one
    matching device entry per service, and give up at the first one not found.
  */
  method FindServices(pts: seq<string>, iut: seq<string>) returns (allFound: bool)
    ensures allFound <==> multiset(pts) <= multiset(iut)
  {
    var iutServices := iut;
    var i := 0;
    while i < |pts|
      invariant 0 <= i <= |pts|
      invariant multiset(iutServices) + multiset(pts[..i]) == multiset(iut)
    {
      var service := pts[i];
      if service !in iutServices {
        MissingService(multiset(pts[..i]), multiset(iutServices), service, pts, i);
        return false;
      }
      TickOff(iutServices, pts, i, multiset(iut));
      iutServices := RemoveFirst(iutServices, service);
      i := i + 1;
    }
    assert pts[..i] == pts;
    return true;
  }

  /** hdl_wid_17: parse and normalise the tester's services, read the device's, and check them off. */
  method HdlWid17(desc: string, db: AttrDb) returns (o: Outcome)
    ensures o == Wid17Expected(desc, db)
  {
    var found := ServicesFound(desc);
    if found == [] {
      return Outcome(Returned(Some(false)), []);
    }
    var ptsServices := NormaliseAll(ServiceTexts(found));
    if ptsServices.None? {
      return Outcome(Raised(ValueError), []);
    }
    var iutServices, calls := ReadPrimaryServices(db);
    var allFound := FindServices(ptsServices.value, iutServices);
    return Outcome(Returned(Some(allFound)), calls);
  }

  /** hdl_wid_17 answers False without touching the device exactly when the prompt names no service. */
  lemma Wid17NoService(desc: string, db: AttrDb)
    ensures Wid17Expected(desc, db) == Outcome(Returned(Some(false)), []) <==> NoMatchFrom(ServicePattern, desc, 0)
  {
    PatternsWellFormed();
    FindAllEmpty(ServicePattern, desc, 0);
  }

  /** A service id of neither 4 nor 32 digits anywhere in the prompt makes hdl_wid_17 raise ValueError before any read. */
  lemma Wid17BadLength(desc: string, db: AttrDb, n: nat)
    requires n < |ServicesFound(desc)|
    requires |ServicesFound(desc)[n][0]| != 4 && |ServicesFound(desc)[n][0]| != 32
    ensures Wid17Expected(desc, db) == Outcome(Raised(ValueError), [])
  {
    assert ServiceTexts(ServicesFound(desc))[n] == ServicesFound(desc)[n][0];
  }

  /**
    When hdl_wid_17 answers True it has read every primary service, and every
    service the prompt names normalises to a UUID the device lists.
  */
  lemma Wid17Accepts(desc: string, db: AttrDb, n: nat)
    requires Wid17Expected(desc, db).reply == Returned(Some(true))
    requires n < |ServicesFound(desc)|
    ensures Wid17Expected(desc, db).calls == ServiceReads(db.services)
    ensures NormaliseService(ServicesFound(desc)[n][0]).Some?
    ensures NormaliseService(ServicesFound(desc)[n][0]).value in IutUuids(db.services)
  {
    var found := ServicesFound(desc);
    var pts := NormaliseAll(ServiceTexts(found)).value;
    assert ServiceTexts(found)[n] == found[n][0];
    assert pts[n] in multiset(pts);
  }

  /**
    Services are counted with repetition: a UUID the prompt names twice needs
    two entries on the device, so one entry is not enough for True.
  */
  lemma Wid17CountsRepeats(desc: string, db: AttrDb, i: nat, j: nat, u: string)
    requires i < j < |ServicesFound(desc)|
    requires NormaliseService(ServicesFound(desc)[i][0]) == Some(u)
    requires NormaliseService(ServicesFound(desc)[j][0]) == Some(u)
    requires multiset(IutUuids(db.services))[u] < 2
    ensures Wid17Expected(desc, db).reply != Returned(Some(true))
  {
    var found := ServicesFound(desc);
    var texts := ServiceTexts(found);
    var r := NormaliseAll(texts);
    if r.Some? {
      var pts := r.value;
      assert texts[i] == found[i][0] && texts[j] == found[j][0];
      CountedTwice(pts, i, j);
    }
  }

  // ---------------------------------------------------------------------
  // hdl_wid_52: Handle='..' value='..'

  /** dict(pairs): one entry per key, the last pair with that key giving the value. */
  function DictOf(ps: seq<(string, string)>): (d: map<string, string>)
    ensures d.Keys == set i | 0 <= i < |ps| :: ps[i].0
    ensures forall k :: k in d ==> exists i :: 0 <= i < |ps| && ps[i] == (k, d[k])
  {
    if ps == [] then map[]
    else
      var init := DictOf(ps[..|ps| - 1]);
      var last := ps[|ps| - 1];
      var d := init[last.0 := last.1];
      assert forall k :: k in d ==> exists i :: 0 <= i < |ps| && ps[i] == (k, d[k]) by {
        forall k | k in d
          ensures exists i :: 0 <= i < |ps| && ps[i] == (k, d[k])
        {
          if k != last.0 {
            var i :| 0 <= i < |ps| - 1 && ps[..|ps| - 1][i] == (k, init[k]);
            assert ps[i] == (k, d[k]);
          } else {
            assert ps[|ps| - 1] == (k, d[k]);
          }
        }
      }
      assert d.Keys == set i | 0 <= i < |ps| :: ps[i].0 by {
        forall k | k in set i | 0 <= i < |ps| :: ps[i].0
          ensures k in d
        {
          var i :| 0 <= i < |ps| && ps[i].0 == k;
          if i < |ps| - 1 {
            assert ps[..|ps| - 1][i].0 == k;
          }
        }
      }
      d
  }

  /** The last pair with a given key is the one dict keeps. */
  lemma {:induction false} DictOfLastWins(ps: seq<(string, string)>, i: nat)
    requires i < |ps| && forall j :: i < j < |ps| ==> ps[j].0 != ps[i].0
    ensures ps[i].0 in DictOf(ps) && DictOf(ps)[ps[i].0] == ps[i].1
  {
    if i < |ps| - 1 {
      DictOfLastWins(ps[..|ps| - 1], i);
    }
  }

  /**
    The (key, text) tuples findall returns for a two-group pattern.
    Its ensures spell the list out element by element: it is the reference list the loops and handlers are proved against.
  */
  function Pairs(found: seq<seq<string>>): (ps: seq<(string, string)>)
    requires forall n :: 0 <= n < |found| ==> |found[n]| == 2
    ensures |ps| == |found| && forall n :: 0 <= n < |found| ==> ps[n] == (found[n][0], found[n][1])
  {
    seq(|found|, n requires 0 <= n < |found| => (found[n][0], found[n][1]))
  }

  /** The Handle and value parameters of a prompt, last occurrence of each key winning. */
  function Wid52Params(desc: string): (d: map<string, string>)
    ensures forall k :: k in d ==> d[k] != [] && IsHex(d[k])
  {
    HandleOrValueGroups(desc);
    DictOf(Pairs(FindAll(HandleOrValuePattern, desc, 0)))
  }

  /** params.get(key): the value stored under the key, or None. */
  function Get(params: map<string, string>, key: string): (t: Option<string>)
    ensures t.Some? <==> key in params
    ensures t.Some? ==> t.value == params[key]
  {
    if key in params then Some(params[key]) else None
  }

  /** int(t, 16) for a hex text or None: TypeError for None, ValueError for the empty text. */
  function Int16(t: Option<string>): (r: Result<nat, Error>)
    requires t.Some? ==> IsHex(t.value)
    ensures t.None? ==> r == Failure(TypeError)
    ensures t == Some([]) ==> r == Failure(ValueError)
    ensures t.Some? && t.value != [] ==> r.Success? && r.value == HexValue(t.value) && r.value < Pow16(|t.value|)
  {
    match t
    case None => Failure(TypeError)
    case Some(s) => if s == [] then Failure(ValueError) else Success(HexValue(s))
  }

  /**
    The device half of hdl_wid_52: convert the Handle and then the value
    parameter, before any read (TypeError, int(None, 16), for a missing one;
    ValueError, int('', 16), for an empty one); then read the attribute at the
    handle: BTP failure when there is none, ValueError when it is empty, and
    otherwise whether the bytes stored there, as one big-endian number, equal
    the value's number.
  */
  function CheckAttrValue(params: map<string, string>, db: AttrDb): (o: Outcome)
    requires forall k :: k in params ==> IsHex(params[k])
    ensures o.reply != Returned(None)
    ensures "Handle" !in params ==> o == Outcome(Raised(TypeError), [])
    ensures "Handle" in params && params["Handle"] == [] ==> o == Outcome(Raised(ValueError), [])
    ensures "Handle" in params && params["Handle"] != [] && "value" !in params ==> o == Outcome(Raised(TypeError), [])
    ensures "Handle" in params && params["Handle"] != [] && "value" in params && params["value"] == [] ==>
      o == Outcome(Raised(ValueError), [])
    ensures "Handle" in params && "value" in params && params["Handle"] != [] && params["value"] != [] ==>
      var h := HexValue(params["Handle"]);
      && o.calls == [GattsGetAttrVal(h)]
      && (!Stored(db, h) ==> o.reply == Raised(BtpError))
      && (Stored(db, h) && db.values[h] == [] ==> o.reply == Raised(ValueError))
      && (Stored(db, h) && db.values[h] != [] ==>
            o.reply == Returned(Some(BigEndian(db.values[h]) == HexValue(params["value"]))))
  {
    var handle := Int16(Get(params, "Handle"));
    if handle.Failure? then Outcome(Raised(handle.error), [])
    else
      var value := Int16(Get(params, "value"));
      if value.Failure? then Outcome(Raised(value.error), [])
      else
        var calls := [GattsGetAttrVal(handle.value)];
        if !Stored(db, handle.value) then Outcome(Raised(BtpError), calls)
        else
          var valueRead := Hexlify(db.values[handle.value]);
          if valueRead == [] then Outcome(Raised(ValueError), calls)
          else
            HexlifyValue(db.values[handle.value]);
            Outcome(Returned(Some(HexValue(valueRead) == value.value)), calls)
  }

  /** hdl_wid_52: False when the prompt has no Handle/value parameter, otherwise the device check. */
  function HdlWid52(desc: string, db: AttrDb): (o: Outcome)
    ensures o.reply != Returned(None)
  {
    if FindAll(HandleOrValuePattern, desc, 0) == [] then Outcome(Returned(Some(false)), [])
    else CheckAttrValue(Wid52Params(desc), db)
  }

  /** hdl_wid_52 answers False without touching the device exactly when the prompt has no parameter. */
  lemma Wid52NoParams(desc: string, db: AttrDb)
    ensures HdlWid52(desc, db) == Outcome(Returned(Some(false)), []) <==> NoMatchFrom(HandleOrValuePattern, desc, 0)
  {
    PatternsWellFormed();
    FindAllEmpty(HandleOrValuePattern, desc, 0);
  }

  /** The parameters hdl_wid_52 uses are those of the last Handle and the last value match. */
  lemma Wid52LastWins(desc: string, i: nat, j: nat)
    requires var found := FindAll(HandleOrValuePattern, desc, 0);
      i < |found| && j < |found| && |found[i]| == 2 && |found[j]| == 2
      && found[i][0] == "Handle" && found[j][0] == "value"
      && (forall n :: i < n < |found| && |found[n]| == 2 ==> found[n][0] != "Handle")
      && (forall n :: j < n < |found| && |found[n]| == 2 ==> found[n][0] != "value")
    ensures var found, params := FindAll(HandleOrValuePattern, desc, 0), Wid52Params(desc);
      "Handle" in params && "value" in params
      && params["Handle"] == found[i][1] && params["value"] == found[j][1]
  {
    HandleOrValueGroups(desc);
    var ps := Pairs(FindAll(HandleOrValuePattern, desc, 0));
    DictOfLastWins(ps, i);
    DictOfLastWins(ps, j);
  }

  /** A prompt that has parameters but no Handle (or no value) makes hdl_wid_52 raise TypeError before any read. */
  lemma Wid52MissingKey(desc: string, db: AttrDb, key: string)
    requires key == "Handle" || key == "value"
    requires var found := FindAll(HandleOrValuePattern, desc, 0);
      found != [] && forall n :: 0 <= n < |found| && |found[n]| == 2 ==> found[n][0] != key
    ensures HdlWid52(desc, db) == Outcome(Raised(TypeError), [])
  {
    HandleOrValueGroups(desc);
    assert key !in DictOf(Pairs(FindAll(HandleOrValuePattern, desc, 0)));
  }

  // ---------------------------------------------------------------------
  // hdl_wid_56: Handle pair = '..'O '..'O value='..'O

  /**
    The device half of hdl_wid_56: read the two handles in order (BTP failure
    at the first one missing), and compare `value`, as text, with the
    upper-case hex of the first attribute followed by that of the second. The
    verdict is whether `value` is upper-case hex, two digits per byte, of the
    number the two attributes spell together.
  */
  function CheckConcatenation(handle1: nat, handle2: nat, value: string, db: AttrDb): (o: Outcome)
    requires IsHex(value)
    ensures o.reply != Returned(None)
    ensures !Stored(db, handle1) ==> o == Outcome(Raised(BtpError), [GattsGetAttrVal(handle1)])
    ensures Stored(db, handle1) ==> o.calls == [GattsGetAttrVal(handle1), GattsGetAttrVal(handle2)]
    ensures Stored(db, handle1) && !Stored(db, handle2) ==> o.reply == Raised(BtpError)
    ensures Stored(db, handle1) && Stored(db, handle2) ==>
      var both := db.values[handle1] + db.values[handle2];
      o.reply == Returned(Some(IsUpperHex(value) && |value| == 2 * |both| && HexValue(value) == BigEndian(both)))
  {
    var calls1 := [GattsGetAttrVal(handle1)];
    if !Stored(db, handle1) then Outcome(Raised(BtpError), calls1)
    else
      var valueRead1 := Upper(Hexlify(db.values[handle1]));
      var calls2 := calls1 + [GattsGetAttrVal(handle2)];
      if !Stored(db, handle2) then Outcome(Raised(BtpError), calls2)
      else
        var valueRead2 := Upper(Hexlify(db.values[handle2]));
        var b1, b2 := db.values[handle1], db.values[handle2];
        HexlifyConcat(b1, b2);
        UpperConcat(Hexlify(b1), Hexlify(b2));
        UpperHexlifyIff(value, b1 + b2);
        Outcome(Returned(Some(value == valueRead1 + valueRead2)), calls2)
  }

  /**
    hdl_wid_56: False when the prompt lacks a handle pair or a value;
    otherwise the device check on the first pair and the first value.
  */
  function HdlWid56(desc: string, db: AttrDb): (o: Outcome)
    ensures o.reply != Returned(None)
  {
    var pairs := FindAll(HandlePairPattern, desc, 0);
    if pairs == [] then Outcome(Returned(Some(false)), [])
    else
      var values := FindAll(ValuePattern, desc, 0);
      if values == [] then Outcome(Returned(Some(false)), [])
      else
        HandlePairGroups(desc);
        ValueGroups(desc);
        CheckConcatenation(HexValue(pairs[0][0]), HexValue(pairs[0][1]), values[0][0], db)
  }

  /** hdl_wid_56 answers False without touching the device exactly when the pair or the value is missing. */
  lemma Wid56NoParams(desc: string, db: AttrDb)
    ensures HdlWid56(desc, db) == Outcome(Returned(Some(false)), []) <==>
      NoMatchFrom(HandlePairPattern, desc, 0) || NoMatchFrom(ValuePattern, desc, 0)
  {
    PatternsWellFormed();
    FindAllEmpty(HandlePairPattern, desc, 0);
    FindAllEmpty(ValuePattern, desc, 0);
  }

  /**
    hdl_wid_56 checks the leftmost handle pair and the leftmost value of the
    prompt, whatever follows them.
  */
  lemma Wid56Leftmost(desc: string, db: AttrDb, k1: nat, k2: nat)
    requires k1 <= |desc| && k2 <= |desc|
    requires MatchAt(HandlePairPattern, desc, k1).Some?
    requires forall q :: 0 <= q < k1 ==> MatchAt(HandlePairPattern, desc, q).None?
    requires MatchAt(ValuePattern, desc, k2).Some?
    requires forall q :: 0 <= q < k2 ==> MatchAt(ValuePattern, desc, q).None?
    ensures var g1, g2 := MatchAt(HandlePairPattern, desc, k1).value.groups, MatchAt(ValuePattern, desc, k2).value.groups;
      |g1| == 2 && |g2| == 1 && IsHex(g1[0]) && IsHex(g1[1]) && IsHex(g2[0])
      && HdlWid56(desc, db) == CheckConcatenation(HexValue(g1[0]), HexValue(g1[1]), g2[0], db)
  {
    PatternsWellFormed();
    FindAllFirst(HandlePairPattern, desc, 0, k1);
    FindAllFirst(ValuePattern, desc, 0, k2);
    HandlePairGroups(desc);
    ValueGroups(desc);
  }

  /** The comparison is on text: a value written with a lower-case hex letter is never accepted. */
  lemma LowerCaseValueRejected(h1: nat, h2: nat, value: string, db: AttrDb, k: nat)
    requires IsHex(value) && k < |value| && 'a' <= value[k] <= 'f'
    ensures CheckConcatenation(h1, h2, value, db).reply != Returned(Some(true))
  {
  }

  // ---------------------------------------------------------------------
  // gatt_wid_hdl

  /** The work items that have a handler (a function hdl_wid_<wid> in the module). */
  predicate HasHandler(wid: int) {
    wid == 1 || wid == 17 || wid == 52 || wid == 56
  }

  /**
    gatt_wid_hdl: call hdl_wid_<wid> on the prompt; when there is no such
    handler the lookup's AttributeError is logged and None is returned.
  */
  method GattWidHdl(wid: int, desc: string, db: AttrDb) returns (o: Outcome)
    ensures !HasHandler(wid) ==> o == Outcome(Returned(None), [])
    ensures HasHandler(wid) ==> o.reply != Returned(None)
    ensures wid == 1 ==> o == HdlWid1(desc)
    ensures wid == 17 ==> o == Wid17Expected(desc, db)
    ensures wid == 52 ==> o == HdlWid52(desc, db)
    ensures wid == 56 ==> o == HdlWid56(desc, db)
  {
    if wid == 1 {
      o := HdlWid1(desc);
    } else if wid == 17 {
      o := HdlWid17(desc, db);
    } else if wid == 52 {
      o := HdlWid52(desc, db);
    } else if wid == 56 {
      o := HdlWid56(desc, db);
    } else {
      o := Outcome(Returned(None), []);
    }
  }
}
