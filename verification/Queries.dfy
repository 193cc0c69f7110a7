/** The queries that read the cached database: by UUID and instance, and by handle. */
module Queries {
  import opened Widths
  import opened Attributes
  import opened ServiceTable
  import opened DiscoveryList

  // ----- Instance ids are a key -----

  /** What a find by UUID and instance looks at. */
  datatype Tag = Tag(uuid: Uuid, inst: u8)

  function SrvTags(cs: seq<CachedSrv>): (ts: seq<Tag>)
    ensures |ts| == |cs| && forall i :: 0 <= i < |cs| ==> ts[i] == Tag(cs[i].srv.uuid, cs[i].srv.hdr.inst)
  {
    if cs == [] then [] else [Tag(cs[0].srv.uuid, cs[0].srv.hdr.inst)] + SrvTags(cs[1..])
  }

  ghost predicate AllChars(rs: seq<Row>) {
    forall i :: 0 <= i < |rs| ==> rs[i].CharRow?
  }

  function CharTags(rs: seq<Row>): (ts: seq<Tag>)
    requires AllChars(rs)
    ensures |ts| == |rs| && forall i :: 0 <= i < |rs| ==> ts[i] == Tag(rs[i].ch.uuid, rs[i].ch.hdr.inst)
  {
    if rs == [] then []
    else
      assert forall i :: 0 <= i < |rs[1..]| ==> rs[1..][i] == rs[i+1];
      [Tag(rs[0].ch.uuid, rs[0].ch.hdr.inst)] + CharTags(rs[1..])
  }

  function CountTag(ts: seq<Tag>, u: Uuid): (n: nat)
    ensures n <= |ts|
  {
    if ts == [] then 0 else CountTag(ts[..|ts|-1], u) + if ts[|ts|-1].uuid == u then 1 else 0
  }

  ghost predicate KeyedTags(ts: seq<Tag>) {
    forall i :: 0 <= i < |ts| ==> ts[i].inst == To8(CountTag(ts[..i], ts[i].uuid))
  }

  /** Index of the first tag with this UUID and instance, or |ts|. */
  function FindTag(ts: seq<Tag>, u: Uuid, k: u8): (i: nat)
    ensures i <= |ts|
    ensures i < |ts| ==> ts[i] == Tag(u, k)
    ensures forall j :: 0 <= j < i ==> ts[j] != Tag(u, k)
  {
    if ts == [] || ts[0] == Tag(u, k) then 0 else 1 + FindTag(ts[1..], u, k)
  }

  lemma KeyedAt(ts: seq<Tag>, i: nat)
    requires KeyedTags(ts) && |ts| <= 255 && i < |ts|
    ensures ts[i].inst == CountTag(ts[..i], ts[i].uuid)
  {
  }

  lemma KeyedPrefix(ts: seq<Tag>, n: nat)
    requires KeyedTags(ts) && n <= |ts|
    ensures KeyedTags(ts[..n])
  {
    hide To8, CountTag;
    var p := ts[..n];
    forall i | 0 <= i < n ensures p[i].inst == To8(CountTag(p[..i], p[i].uuid)) {
      assert p[..i] == ts[..i];
    }
  }

  lemma CountNone(u: Uuid)
    ensures CountTag([], u) == 0
  {
  }

  lemma CountLast(ts: seq<Tag>, u: Uuid)
    requires ts != []
    ensures CountTag(ts, u) == CountTag(ts[..|ts|-1], u) + if ts[|ts|-1].uuid == u then 1 else 0
  {
  }

  /** Some tag carries (u, k) exactly when k is below the number of tags with that UUID. */
  lemma {:induction false} TagKey(ts: seq<Tag>, u: Uuid, k: u8)
    requires KeyedTags(ts) && |ts| <= 255
    ensures k < CountTag(ts, u) <==> Tag(u, k) in ts
  {
    hide KeyedTags, CountTag, FindTag;
    if ts == [] {
      CountNone(u);
    } else {
      var n := |ts| - 1;
      KeyedAt(ts, n);
      KeyedPrefix(ts, n);
      CountLast(ts, u);
      TagKey(ts[..n], u, k);
      assert ts == ts[..n] + [ts[n]];
    }
  }

  /** Asking for (u, k) finds the k-th tag of that UUID, and finds one exactly when there is one. */
  lemma FindIsKth(ts: seq<Tag>, u: Uuid, k: u8)
    requires KeyedTags(ts) && |ts| <= 255
    ensures FindTag(ts, u, k) < |ts| <==> k < CountTag(ts, u)
    ensures var i := FindTag(ts, u, k); i < |ts| ==> CountTag(ts[..i], u) == k && ts[i].uuid == u
  {
    TagKey(ts, u, k);
    var i := FindTag(ts, u, k);
    if i < |ts| { KeyedAt(ts, i); }
    hide KeyedTags, FindTag, CountTag;
  }

  // ----- The key survives packing -----

  lemma LastTag(db: seq<DisSrv>)
    requires db != []
    ensures |SrvTags(Cache(db))| == |db| && SrvTags(Cache(db))[|db|-1].uuid == db[|db|-1].srv.uuid
  {
    hide SrvTags;
    assert Cache(db)[|db|-1] == Cached(db[|db|-1]);
  }

  lemma {:induction false} SrvTagCount(db: seq<DisSrv>, u: Uuid)
    requires forall d :: d in db ==> TypedSrv(d.srv)
    ensures CountTag(SrvTags(Cache(db)), u) == CountSrv(db, u)
  {
    hide CountTag, SrvTags, Cache, Cached;
    if db == [] {
      CountNone(u);
    } else {
      var n := |db| - 1;
      assert db[n] in db;
      SrvTagCount(db[..n], u);
      TagsPrefix(db, n);
      CountLast(SrvTags(Cache(db)), u);
      LastTag(db);
    }
  }

  lemma CachedSrvsKeyed(db: seq<DisSrv>)
    requires ListOk(db)
    ensures KeyedTags(SrvTags(Cache(db)))
  {
    hide To8, CountTag, DisSrvOk, CountSrv, Cached;
    var ts := SrvTags(Cache(db));
    forall i | 0 <= i < |ts| ensures ts[i].inst == To8(CountTag(ts[..i], ts[i].uuid)) {
      assert SrvTags(Cache(db[..i])) == ts[..i];
      PrefixTyped(db, i);
      SrvTagCount(db[..i], ts[i].uuid);
      CachedSrvSame(db[i]);
    }
  }

  lemma PrefixTyped(db: seq<DisSrv>, n: nat)
    requires ListOk(db) && n <= |db|
    ensures forall d :: d in db[..n] ==> TypedSrv(d.srv)
  {
    forall d | d in db[..n] ensures TypedSrv(d.srv) { assert DisSrvOk(d); }
  }

  lemma CachedSrvSame(d: DisSrv)
    ensures Cached(d).srv == d.srv
  {
  }

  function Wide(u: Uuid): TableKind { if u.Short? then Char16 else Char128 }

  lemma CharRowsAll(chars: seq<DisChar>, k: TableKind)
    ensures AllChars(Pick(CharRows(chars), k))
  {
    PickMembers(CharRows(chars), k);
    var ps := Pick(CharRows(chars), k);
    forall i | 0 <= i < |ps| ensures ps[i].CharRow? {
      assert ps[i] in ps;
    }
  }

  /** The tags of the characteristics packed into one table. */
  function PickedTags(chars: seq<DisChar>, k: TableKind): seq<Tag> {
    CharRowsAll(chars, k);
    CharTags(Pick(CharRows(chars), k))
  }

  lemma PickedSnoc(chars: seq<DisChar>, k: TableKind)
    requires chars != [] && TypedChar(chars[|chars|-1].ch)
    ensures
      var init, c := chars[..|chars|-1], chars[|chars|-1].ch;
      PickedTags(chars, k) == PickedTags(init, k) + if Wide(c.uuid) == k then [Tag(c.uuid, c.hdr.inst)] else []
  {
    var init, c := chars[..|chars|-1], chars[|chars|-1];
    assert chars == init + [c];
    CharRowsSnoc(init, c);
    PickSnoc(CharRows(init), Settle(c), k);
    hide Pick, CharRows;
  }

  /** A width's table holds as many characteristics of a UUID as were discovered. */
  lemma {:induction false} CharTagCount(chars: seq<DisChar>, u: Uuid)
    requires forall c :: c in chars ==> TypedChar(c.ch)
    ensures CountTag(PickedTags(chars, Wide(u)), u) == CountChar(chars, u)
  {
    hide PickedTags;
    if chars == [] {
      EmptyTags(Wide(u));
    } else {
      assert CountChar(chars, u) == CountChar(chars[..|chars|-1], u) + if CharHas(chars[|chars|-1].ch, u) then 1 else 0;
      hide CountTag, CountChar;
      var init, c := chars[..|chars|-1], chars[|chars|-1].ch;
      CharTagCount(init, u);
      PickedSnoc(chars, Wide(u));
      if Wide(c.uuid) == Wide(u) {
        AppendCount(PickedTags(init, Wide(u)), Tag(c.uuid, c.hdr.inst), u);
      } else {
        assert PickedTags(chars, Wide(u)) == PickedTags(init, Wide(u));
      }
    }
  }

  lemma EmptyTags(k: TableKind)
    ensures PickedTags([], k) == []
  {
  }

  /** In each width's table the ids count from zero per UUID. */
  lemma {:induction false} CachedCharsKeyed(chars: seq<DisChar>, k: TableKind)
    requires KeyedChars(chars) && (forall c :: c in chars ==> TypedChar(c.ch))
    ensures KeyedTags(PickedTags(chars, k))
  {
    hide PickedTags;
    if chars == [] {
      EmptyTags(k);
    } else {
      var n := |chars| - 1;
      var init, c := chars[..n], chars[n].ch;
      assert c.hdr.inst == To8(CountChar(init, c.uuid));
      KeyedCharsPrefix(chars, n);
      assert TypedChar(chars[n].ch) && forall x :: x in init ==> TypedChar(x.ch);
      hide KeyedChars, KeyedTags, To8, CountChar, CountTag, TypedChar;
      CachedCharsKeyed(init, k);
      PickedSnoc(chars, k);
      if Wide(c.uuid) == k {
        CharTagCount(init, c.uuid);
        AppendKeyed(PickedTags(init, k), Tag(c.uuid, c.hdr.inst));
      } else {
        assert PickedTags(chars, k) == PickedTags(init, k);
      }
    }
  }

  lemma KeyedCharsPrefix(chars: seq<DisChar>, n: nat)
    requires KeyedChars(chars) && n <= |chars|
    ensures KeyedChars(chars[..n])
  {
    hide To8, CountChar;
    var p := chars[..n];
    forall i | 0 <= i < n ensures p[i].ch.hdr.inst == To8(CountChar(p[..i], p[i].ch.uuid)) {
      assert p[..i] == chars[..i];
    }
  }

  lemma CountNext(ts: seq<Tag>, i: nat, u: Uuid)
    requires i < |ts|
    ensures CountTag(ts[..i+1], u) == CountTag(ts[..i], u) + if ts[i].uuid == u then 1 else 0
  {
    assert ts[..i+1] == ts[..i] + [ts[i]];
    AppendCount(ts[..i], ts[i], u);
  }

  lemma AppendCount(ts: seq<Tag>, t: Tag, u: Uuid)
    ensures CountTag(ts + [t], u) == CountTag(ts, u) + if t.uuid == u then 1 else 0
  {
    assert (ts + [t])[..|ts|] == ts;
  }

  lemma AppendKeyed(ts: seq<Tag>, t: Tag)
    requires KeyedTags(ts) && t.inst == To8(CountTag(ts, t.uuid))
    ensures KeyedTags(ts + [t])
  {
    hide To8, CountTag;
    var m := ts + [t];
    forall i | 0 <= i < |m| ensures m[i].inst == To8(CountTag(m[..i], m[i].uuid)) {
      assert m[..i] == ts[..i];
      if i == |ts| { assert ts[..i] == ts; }
    }
  }

  /** The table of a service that holds its characteristics of this UUID's width. */
  function CharTable(c: CachedSrv, u: Uuid): seq<Row> {
    if u.Short? then c.char16 else c.char128
  }

  /** Finding service (u, k) in the cached database succeeds exactly when k is below the number of
      services discovered with that UUID, and gives the k-th of them. */
  lemma ServiceKey(db: seq<DisSrv>, u: Uuid, k: u8)
    requires ListOk(db) && |db| <= 255
    ensures
      var ts := SrvTags(Cache(db));
      (FindTag(ts, u, k) < |ts| <==> k < CountSrv(db, u)) &&
      (FindTag(ts, u, k) < |ts| ==> CountSrv(db[..FindTag(ts, u, k)], u) == k)
  {
    forall d | d in db ensures TypedSrv(d.srv) { assert DisSrvOk(d); }
    var ts := SrvTags(Cache(db));
    CachedSrvsKeyed(db);
    hide KeyedTags, ListOk, DisSrvOk, CountTag, FindTag, CountSrv, SrvTags, Cache;
    FindIsKth(ts, u, k);
    SrvTagCount(db, u);
    var f := FindTag(ts, u, k);
    SrvTagCount(db[..f], u);
    TagsPrefix(db, f);
  }

  lemma TagsPrefix(db: seq<DisSrv>, n: nat)
    requires n <= |db|
    ensures SrvTags(Cache(db[..n])) == SrvTags(Cache(db))[..n]
  {
    hide SrvTags, Cache, Cached;
    var a, b := SrvTags(Cache(db[..n])), SrvTags(Cache(db));
    forall i | 0 <= i < n ensures a[i] == b[i] {
      assert Cache(db[..n])[i] == Cached(db[i]) == Cache(db)[i];
    }
  }

  /** The same for the characteristics of one service. */
  lemma CharacteristicKey(d: DisSrv, u: Uuid, k: u8)
    requires DisSrvOk(d) && |CharTable(Cached(d), u)| <= 255
    ensures
      var rs := CharTable(Cached(d), u);
      AllChars(rs) &&
      (FindTag(CharTags(rs), u, k) < |rs| <==> k < CountChar(d.chars, u)) &&
      (var j := FindTag(CharTags(rs), u, k); j < |rs| ==> CountTag(CharTags(rs)[..j], u) == k)
  {
    CharRowsAll(d.chars, Wide(u));
    CachedCharsKeyed(d.chars, Wide(u));
    CharTagCount(d.chars, u);
    hide KeyedTags, DisSrvOk, KeyedChars, CountTag, FindTag;
    FindIsKth(PickedTags(d.chars, Wide(u)), u, k);
  }

  /** On a typed list the queries' test of type and UUID is a test of the UUID. */
  ghost predicate TypedSrvs(cs: seq<CachedSrv>) {
    forall c :: c in cs ==> TypedSrv(c.srv)
  }

  lemma HasIsEqual(cs: seq<CachedSrv>, i: nat, u: Uuid)
    requires TypedSrvs(cs) && i < |cs|
    ensures SrvHas(cs[i].srv, u) <==> cs[i].srv.uuid == u
  {
    assert TypedSrv(cs[i].srv);
  }

  // ----- Queries by handle -----

  /** What a handle is, relative to one characteristic. */
  datatype Role = Unknown | Value | Cccd | Descriptor

  function RoleIn(r: Row, h: u16): Role
    requires r.CharRow?
  {
    if h == r.ch.value then Value
    else if h == r.cccd.handle then Cccd
    else if r.ch.value < h <= r.ch.last then Descriptor
    else Unknown
  }

  /** Index of the first row the handle plays a role in, or |rs|. */
  function FindRole(rs: seq<Row>, h: u16): (i: nat)
    requires AllChars(rs)
    ensures i <= |rs|
    ensures i < |rs| ==> RoleIn(rs[i], h) != Unknown
    ensures forall j :: 0 <= j < i ==> RoleIn(rs[j], h) == Unknown
  {
    if rs == [] || RoleIn(rs[0], h) != Unknown then 0
    else
      assert forall i :: 0 <= i < |rs[1..]| ==> rs[1..][i] == rs[i+1];
      1 + FindRole(rs[1..], h)
  }

  datatype Found = NotFound | Found(role: Role, ch: Char)

  ghost predicate CharTables(c: CachedSrv) {
    AllChars(c.char16) && AllChars(c.char128)
  }

  /** The answer to a handle.  A match among the 16-bit characteristics does not end the source's
      search: its 128-bit loop then runs with the found flag still set, and the first entry there
      replaces the characteristic in the answer. */
  function CharDesc(c: CachedSrv, h: u16): Found
    requires CharTables(c)
  {
    var i, j := FindRole(c.char16, h), FindRole(c.char128, h);
    if h == 0 then NotFound
    else if i < |c.char16| && c.char128 == [] then Found(RoleIn(c.char16[i], h), c.char16[i].ch)
    else if i < |c.char16| then
      Found(if j == 0 then RoleIn(c.char128[0], h) else RoleIn(c.char16[i], h), c.char128[0].ch)
    else if j < |c.char128| then Found(RoleIn(c.char128[j], h), c.char128[j].ch)
    else NotFound
  }

  // ----- The handle partition -----

  predicate Owns(r: Row, h: u16)
    requires r.CharRow?
  {
    r.ch.value <= h <= r.ch.last
  }

  predicate Apart(r: Row, s: Row)
    requires r.CharRow? && s.CharRow?
  {
    r.ch.last < s.ch.value || s.ch.last < r.ch.value
  }

  /** Ranges [value, end] are nonempty, inside the service and pairwise disjoint, and each CCCD lies
      in its own characteristic's range. */
  ghost predicate Partitioned(c: CachedSrv) {
    CharTables(c) &&
    (forall i :: 0 <= i < |c.char16| ==> InService(c.srv, c.char16[i])) &&
    (forall i :: 0 <= i < |c.char128| ==> InService(c.srv, c.char128[i])) &&
    (forall i, j :: 0 <= i < j < |c.char16| ==> Apart(c.char16[i], c.char16[j])) &&
    (forall i, j :: 0 <= i < j < |c.char128| ==> Apart(c.char128[i], c.char128[j])) &&
    (forall i, j :: 0 <= i < |c.char16| && 0 <= j < |c.char128| ==> Apart(c.char16[i], c.char128[j]))
  }

  predicate InService(s: Srv, r: Row)
    requires r.CharRow?
  {
    s.hdr.handle < r.ch.value <= r.ch.last <= s.endGroup &&
    (r.cccd.handle != 0 ==> r.ch.value < r.cccd.handle <= r.ch.last)
  }

  /** On a partitioned service a handle has a role in a characteristic exactly if it is in its range. */
  lemma RoleMeansOwned(s: Srv, r: Row, h: u16)
    requires r.CharRow? && InService(s, r) && h != 0
    ensures RoleIn(r, h) != Unknown <==> Owns(r, h)
  {
  }

  /** The owner of a handle, if any, in a partitioned service: its index counts through the 16-bit
      table and then the 128-bit table. */
  ghost predicate OwnerAt(c: CachedSrv, h: u16, i: nat)
    requires CharTables(c)
  {
    if i < |c.char16| then Owns(c.char16[i], h)
    else i - |c.char16| < |c.char128| && Owns(c.char128[i - |c.char16|], h)
  }

  function RowAtIndex(c: CachedSrv, i: nat): Row
    requires i < |c.char16| + |c.char128|
  {
    if i < |c.char16| then c.char16[i] else c.char128[i - |c.char16|]
  }

  /** The role names what the handle is to this characteristic: its value, its CCCD, or another
      descriptor in its range. */
  predicate NamesRole(role: Role, o: Row, h: u16) {
    o.CharRow? &&
    match role
    case Value => h == o.ch.value
    case Cccd => h != o.ch.value && h == o.cccd.handle
    case Descriptor => o.ch.value < h <= o.ch.last && h != o.cccd.handle
    case Unknown => false
  }

  lemma OwnerIn16(c: CachedSrv, h: u16, i: nat)
    requires Partitioned(c) && h != 0 && i < |c.char16| && Owns(c.char16[i], h)
    ensures FindRole(c.char16, h) == i && FindRole(c.char128, h) == |c.char128|
  {
    RoleMeansOwned(c.srv, c.char16[i], h);
    forall j | 0 <= j < i ensures RoleIn(c.char16[j], h) == Unknown {
      assert Apart(c.char16[j], c.char16[i]);
      RoleMeansOwned(c.srv, c.char16[j], h);
    }
    forall j | 0 <= j < |c.char128| ensures RoleIn(c.char128[j], h) == Unknown {
      assert Apart(c.char16[i], c.char128[j]);
      RoleMeansOwned(c.srv, c.char128[j], h);
    }
  }

  lemma OwnerIn128(c: CachedSrv, h: u16, j: nat)
    requires Partitioned(c) && h != 0 && j < |c.char128| && Owns(c.char128[j], h)
    ensures FindRole(c.char128, h) == j && FindRole(c.char16, h) == |c.char16|
  {
    RoleMeansOwned(c.srv, c.char128[j], h);
    forall k | 0 <= k < j ensures RoleIn(c.char128[k], h) == Unknown {
      assert Apart(c.char128[k], c.char128[j]);
      RoleMeansOwned(c.srv, c.char128[k], h);
    }
    forall i | 0 <= i < |c.char16| ensures RoleIn(c.char16[i], h) == Unknown {
      assert Apart(c.char16[i], c.char128[j]);
      RoleMeansOwned(c.srv, c.char16[i], h);
    }
  }

  /** A handle in a range is found with its right role.  The characteristic reported with it is the
      owner exactly when the owner is a 128-bit characteristic or the service has none; otherwise the
      service's first 128-bit characteristic is reported in its place. */
  lemma CharDescOfOwner(c: CachedSrv, h: u16, i: nat)
    requires Partitioned(c) && TypedRows(c.char16, Char16) && TypedRows(c.char128, Char128)
    requires h != 0 && OwnerAt(c, h, i)
    ensures
      var r := CharDesc(c, h);
      r.Found? && NamesRole(r.role, RowAtIndex(c, i), h) &&
      (r.ch == RowAtIndex(c, i).ch <==> i >= |c.char16| || c.char128 == []) &&
      (i < |c.char16| && c.char128 != [] ==> r.ch == c.char128[0].ch)
  {
    if i < |c.char16| {
      OwnerIn16(c, h, i);
      if c.char128 != [] {
        assert c.char16[i] in c.char16 && c.char128[0] in c.char128;
      }
    } else {
      OwnerIn128(c, h, i - |c.char16|);
    }
  }

  /** A handle is found exactly when some characteristic's range holds it. */
  lemma CharDescFinds(c: CachedSrv, h: u16)
    requires Partitioned(c) && h != 0
    ensures CharDesc(c, h).Found? <==> exists i :: OwnerAt(c, h, i)
  {
    var f, g := FindRole(c.char16, h), FindRole(c.char128, h);
    if f < |c.char16| {
      RoleMeansOwned(c.srv, c.char16[f], h);
      assert OwnerAt(c, h, f);
    } else if g < |c.char128| {
      RoleMeansOwned(c.srv, c.char128[g], h);
      assert OwnerAt(c, h, |c.char16| + g);
    } else {
      forall i: nat ensures !OwnerAt(c, h, i) {
        if i < |c.char16| {
          RoleMeansOwned(c.srv, c.char16[i], h);
        } else if i - |c.char16| < |c.char128| {
          RoleMeansOwned(c.srv, c.char128[i - |c.char16|], h);
        }
      }
    }
  }

  /** So a service answers every handle with the owning characteristic exactly when it does not mix
      a described 16-bit characteristic with a 128-bit one. */
  lemma AllOwnersReported(c: CachedSrv)
    requires Partitioned(c) && TypedRows(c.char16, Char16) && TypedRows(c.char128, Char128)
    ensures
      (forall h: u16, i: nat :: h != 0 && OwnerAt(c, h, i) ==> CharDesc(c, h).Found? && CharDesc(c, h).ch == RowAtIndex(c, i).ch)
      <==> c.char16 == [] || c.char128 == []
  {
    forall h: u16, i: nat | h != 0 && OwnerAt(c, h, i)
      ensures CharDesc(c, h).Found? && (CharDesc(c, h).ch == RowAtIndex(c, i).ch <==> i >= |c.char16| || c.char128 == [])
    {
      CharDescOfOwner(c, h, i);
    }
    if c.char16 != [] && c.char128 != [] {
      assert InService(c.srv, c.char16[0]);
      assert OwnerAt(c, c.char16[0].ch.value, 0);
      CharDescOfOwner(c, c.char16[0].ch.value, 0);
    }
  }

  // ----- Over the whole database -----

  predicate Spans(s: Srv, h: u16) { s.hdr.handle <= h <= s.endGroup }

  /** Index of the first service whose range holds the handle, or |cs|. */
  function FindSrvAt(cs: seq<CachedSrv>, h: u16): (i: nat)
    ensures i <= |cs|
    ensures i < |cs| ==> Spans(cs[i].srv, h)
    ensures forall j :: 0 <= j < i ==> !Spans(cs[j].srv, h)
  {
    if cs == [] || Spans(cs[0].srv, h) then 0 else 1 + FindSrvAt(cs[1..], h)
  }

  /** No handle lies in the ranges of two services. */
  ghost predicate DisjointSrvs(cs: seq<CachedSrv>) {
    forall i, j, h :: 0 <= i < j < |cs| ==> !(Spans(cs[i].srv, h) && Spans(cs[j].srv, h))
  }

  /** The attribution theorem: in a database of disjoint, partitioned services, looking for a handle's
      service and then for its characteristic there finds the service and the role of the one
      characteristic in the database whose range holds it, and that characteristic itself exactly when
      it is a 128-bit one or its service has none. */
  lemma HandleAttribution(cs: seq<CachedSrv>, h: u16, s: nat, i: nat)
    requires DisjointSrvs(cs) && s < |cs| && Partitioned(cs[s]) && h != 0 && OwnerAt(cs[s], h, i)
    requires TypedRows(cs[s].char16, Char16) && TypedRows(cs[s].char128, Char128)
    ensures FindSrvAt(cs, h) == s
    ensures
      var c := cs[FindSrvAt(cs, h)];
      var r := CharDesc(c, h);
      r.Found? && NamesRole(r.role, RowAtIndex(c, i), h) &&
      (r.ch == RowAtIndex(c, i).ch <==> i >= |c.char16| || c.char128 == [])
    ensures forall t: nat, j: nat :: t < |cs| && Partitioned(cs[t]) && OwnerAt(cs[t], h, j) ==> t == s
  {
    hide FindSrvAt;
    OwnerSpanned(cs[s], h, i);
    var f := FindSrvAt(cs, h);
    assert f <= s;
    CharDescOfOwner(cs[s], h, i);
    forall t: nat, j: nat | t < |cs| && Partitioned(cs[t]) && OwnerAt(cs[t], h, j) ensures t == s {
      OwnerSpanned(cs[t], h, j);
    }
  }

  lemma OwnerSpanned(c: CachedSrv, h: u16, i: nat)
    requires Partitioned(c) && OwnerAt(c, h, i)
    ensures Spans(c.srv, h)
  {
    if i < |c.char16| { assert InService(c.srv, c.char16[i]); } else { assert InService(c.srv, c.char128[i - |c.char16|]); }
  }

  // ----- Where the partition comes from -----

  /** Value handles lie inside the service and leave room for a declaration in between. */
  ghost predicate OrderedValues(d: DisSrv) {
    (forall i :: 0 <= i < |d.chars| ==> d.srv.hdr.handle < d.chars[i].ch.value <= d.srv.endGroup) &&
    (forall i, j :: 0 <= i < j < |d.chars| ==> d.chars[i].ch.value + 2 <= d.chars[j].ch.value)
  }

  /** What discovery establishes for a service whose value handles are reported in increasing order
      right after their declarations, with descriptors reported inside the range asked for. */
  ghost predicate OrderedChars(d: DisSrv) {
    OrderedValues(d) &&
    (forall i {:trigger EndOf(d, i)} :: 0 <= i < |d.chars| ==> d.chars[i].ch.last == EndOf(d, i)) &&
    (forall i :: 0 <= i < |d.chars| ==> DescsInside(d.chars[i]))
  }

  /** The end handle discovery computes for the i-th characteristic. */
  function EndOf(d: DisSrv, i: nat): u16
    requires i < |d.chars|
  {
    if i == |d.chars| - 1 then d.srv.endGroup else To16(d.chars[i+1].ch.value - 2)
  }

  predicate DescsInside(c: DisChar) {
    (c.descEnd != 0 ==> c.ch.value < c.descEnd <= c.ch.last) &&
    (c.cccd.handle != 0 ==> c.ch.value < c.cccd.handle <= c.descEnd)
  }

  ghost predicate Increasing(rs: seq<Row>) {
    AllChars(rs) && forall i, j :: 0 <= i < j < |rs| ==> rs[i].ch.last < rs[j].ch.value
  }

  lemma {:induction false} PickIncreasing(rs: seq<Row>, k: TableKind)
    requires Increasing(rs)
    ensures Increasing(Pick(rs, k))
  {
    hide Increasing, KindOf;
    if rs != [] {
      var t := rs[1..];
      IncreasingTail(rs);
      PickIncreasing(t, k);
      PickMembers(t, k);
      var p := Pick(t, k);
      forall i | 0 <= i < |p| ensures p[i].CharRow? && rs[0].ch.last < p[i].ch.value { assert p[i] in p; }
      IncreasingCons(rs[0], p);
    } else {
      assert Pick(rs, k) == rs;
    }
  }

  lemma IncreasingTail(rs: seq<Row>)
    requires Increasing(rs) && rs != []
    ensures Increasing(rs[1..]) && rs[0].CharRow?
    ensures forall r :: r in rs[1..] ==> r.CharRow? && rs[0].ch.last < r.ch.value
  {
    var t := rs[1..];
    forall i, j | 0 <= i < j < |t| ensures t[i].CharRow? && t[j].CharRow? && t[i].ch.last < t[j].ch.value {
      assert t[i] == rs[i+1] && t[j] == rs[j+1];
    }
    forall i | 0 <= i < |t| ensures t[i].CharRow? { assert t[i] == rs[i+1]; }
  }

  lemma IncreasingPair(rs: seq<Row>, i: nat, j: nat)
    requires Increasing(rs) && i < j < |rs|
    ensures rs[i].CharRow? && rs[j].CharRow? && rs[i].ch.last < rs[j].ch.value
  {
  }

  lemma IncreasingCons(x: Row, rs: seq<Row>)
    requires Increasing(rs) && x.CharRow?
    requires forall i :: 0 <= i < |rs| ==> rs[i].CharRow? && x.ch.last < rs[i].ch.value
    ensures Increasing([x] + rs) && [] + rs == rs
  {
    assert [] + rs == rs;
    var t := [x] + rs;
    forall i | 0 <= i < |t| ensures t[i].CharRow? {}
    forall i, j | 0 <= i < j < |t| ensures t[i].ch.last < t[j].ch.value {
      hide Increasing;
      if i > 0 { IncreasingPair(rs, i - 1, j - 1); }
    }
  }

  lemma SettledInside(d: DisSrv, i: nat)
    requires OrderedChars(d) && i < |d.chars|
    ensures InService(d.srv, Settle(d.chars[i]))
    ensures Settle(d.chars[i]).ch.last <= EndOf(d, i)
  {
    assert d.chars[i].ch.value <= EndOf(d, i) <= d.srv.endGroup;
    assert DescsInside(d.chars[i]);
  }

  lemma SettledBefore(d: DisSrv, i: nat, j: nat)
    requires OrderedChars(d) && i < j < |d.chars|
    ensures Settle(d.chars[i]).CharRow? && Settle(d.chars[j]).CharRow?
    ensures Settle(d.chars[i]).ch.last < Settle(d.chars[j]).ch.value
  {
    SettledInside(d, i);
    assert d.chars[i+1].ch.value <= d.chars[j].ch.value;
  }

  lemma SettledRows(d: DisSrv)
    requires OrderedChars(d)
    ensures Increasing(CharRows(d.chars))
    ensures forall r :: r in CharRows(d.chars) ==> r.CharRow? && InService(d.srv, r)
  {
    hide OrderedChars, InService;
    var rs := CharRows(d.chars);
    forall i | 0 <= i < |rs| ensures rs[i].CharRow? && InService(d.srv, rs[i]) { SettledInside(d, i); }
    forall i, j | 0 <= i < j < |rs| ensures rs[i].ch.last < rs[j].ch.value {
      SettledBefore(d, i, j);
    }
  }

  lemma IncreasingApart(rs: seq<Row>, a: Row, b: Row)
    requires Increasing(rs) && a in rs && b in rs && a != b
    ensures Apart(a, b)
  {
    var p :| 0 <= p < |rs| && rs[p] == a;
    var q :| 0 <= q < |rs| && rs[q] == b;
    assert p < q || q < p;
  }

  /** Discovery in order yields a partitioned service. */
  lemma HandlePartition(d: DisSrv)
    requires OrderedChars(d)
    ensures Partitioned(Cached(d))
  {
    var rs := CharRows(d.chars);
    var c := Cached(d);
    SettledRows(d);
    PickIncreasing(rs, Char16);
    PickIncreasing(rs, Char128);
    PickMembers(rs, Char16);
    PickMembers(rs, Char128);
    hide Pick, CharRows, OrderedChars, InService;
    forall i | 0 <= i < |c.char16| ensures InService(c.srv, c.char16[i]) { assert c.char16[i] in c.char16; }
    forall i | 0 <= i < |c.char128| ensures InService(c.srv, c.char128[i]) { assert c.char128[i] in c.char128; }
    forall i, j | 0 <= i < |c.char16| && 0 <= j < |c.char128| ensures Apart(c.char16[i], c.char128[j]) {
      assert c.char16[i] in c.char16 && c.char128[j] in c.char128;
      assert c.char16[i] != c.char128[j];
      IncreasingApart(rs, c.char16[i], c.char128[j]);
    }
  }
}
