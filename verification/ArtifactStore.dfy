/** The content-addressed artifact store: rows in a database, objects in a directory, and a
    process that may die between any two of its effects. */
module ArtifactStore {
  import Text

  const MAX_ARTIFACT := 16 * 1024 * 1024
  const WORKFLOW_QUOTA := 256 * 1024 * 1024
  const RECEIPT_AUTHORITY := "receipt_authority"

  /** A digest is the content it is taken of; an artifact's id is its digest. */
  type Id = string

  datatype Row = Row(workflow: string, kind: string, digest: string, size: nat, authoritative: bool, created: Stamp, retainUntil: Stamp)

  /** What lies at an object path: a file, or something unsafe. */
  datatype Object = File(content: string) | Unsafe

  datatype Ref = Ref(artifact: Id, ownerKind: string, ownerId: string)

  datatype Outcome = Ok | Limit | Quota | Protected | Failed | Killed

  const DAY := 24 * 60 * 60

  function Retention(kind: string, now: Stamp): Stamp {
    now.(second := now.second + (if kind == "log" || kind == "trace" then 30 else 90) * DAY)
  }

  /** Logs and traces are kept for 2 592 000 seconds, everything else for 7 776 000. */
  predicate KeptUntil(kind: string, now: Stamp, until: Stamp) {
    && until.fraction == now.fraction
    && (kind in {"log", "trace"} ==> until.second - now.second == 2_592_000)
    && (kind !in {"log", "trace"} ==> until.second - now.second == 7_776_000)
  }

  lemma RetentionIs(kind: string, now: Stamp)
    ensures KeptUntil(kind, now, Retention(kind, now))
  {
  }

  // ------------------------------------------------------------- times as text

  /** A moment as it is written down: the second, and the digits of its fraction without the
      zeros at the end. */
  datatype Stamp = Stamp(second: int, fraction: string)

  predicate Digits(s: string) {
    forall i :: 0 <= i < |s| ==> '0' <= s[i] <= '9'
  }

  predicate StampOk(t: Stamp) {
    |t.fraction| <= 9 && Digits(t.fraction) && (t.fraction != "" ==> t.fraction[|t.fraction| - 1] != '0')
  }

  function Tail(t: Stamp): string {
    if t.fraction == "" then "Z" else "." + t.fraction + "Z"
  }

  /** How the database compares two moments: seconds are written with as many digits each. */
  predicate TextBefore(a: Stamp, b: Stamp) {
    a.second < b.second || (a.second == b.second && Text.Less(Tail(a), Tail(b)))
  }

  /** The part of a second that a fraction stands for. */
  function Worth(s: string): real
    requires Digits(s)
  {
    if s == "" then 0.0 else ((s[0] - '0') as real + Worth(s[1..])) / 10.0
  }

  predicate Earlier(a: Stamp, b: Stamp)
    requires StampOk(a) && StampOk(b)
  {
    a.second < b.second || (a.second == b.second && Worth(a.fraction) < Worth(b.fraction))
  }

  predicate ProperPrefix(a: string, b: string) {
    |a| < |b| && b[..|a|] == a
  }

  lemma {:induction false} WorthFits(s: string)
    requires Digits(s)
    ensures 0.0 <= Worth(s) < 1.0 && (s != "" && s[|s| - 1] != '0' ==> Worth(s) > 0.0)
  {
    if s != "" {
      WorthFits(s[1..]);
      assert |s| > 1 ==> s[1..][|s[1..]| - 1] == s[|s| - 1];
      assert 0.0 <= (s[0] - '0') as real <= 9.0;
    }
  }

  lemma {:induction false} FractionOrder(a: string, b: string)
    requires Digits(a) && Digits(b)
    requires (a != "" ==> a[|a| - 1] != '0') && (b != "" ==> b[|b| - 1] != '0')
    ensures ProperPrefix(a, b) ==> Worth(a) < Worth(b) && !Text.Less(a + "Z", b + "Z")
    ensures ProperPrefix(b, a) ==> Worth(b) < Worth(a) && Text.Less(a + "Z", b + "Z")
    ensures !ProperPrefix(a, b) && !ProperPrefix(b, a) ==> (Text.Less(a + "Z", b + "Z") <==> Worth(a) < Worth(b))
  {
    WorthFits(a);
    WorthFits(b);
    if a != "" && b != "" {
      assert (a + "Z")[1..] == a[1..] + "Z" && (b + "Z")[1..] == b[1..] + "Z";
      if a[0] == b[0] {
        FractionOrder(a[1..], b[1..]);
        SamePrefix(a, b);
        SamePrefix(b, a);
      } else {
        FirstDigit(a, b);
        FirstDigit(b, a);
      }
    }
  }

  lemma SamePrefix(a: string, b: string)
    requires a != "" && b != "" && a[0] == b[0]
    ensures ProperPrefix(a, b) <==> ProperPrefix(a[1..], b[1..])
  {
    if |a| < |b| {
      assert b[..|a|] == [b[0]] + b[1..][..|a| - 1] && a == [a[0]] + a[1..];
    }
  }

  lemma FirstDigit(a: string, b: string)
    requires Digits(a) && Digits(b) && a != "" && b != ""
    ensures a[0] < b[0] ==> Worth(a) < Worth(b)
  {
    WorthFits(a[1..]);
    WorthFits(b[1..]);
    var x, y := a[0] - '0', b[0] - '0';
    assert a[0] < b[0] ==> x as real + 1.0 <= y as real;
  }

  /** The database's order of two moments is their order in time, except that within one second
      a fraction that continues another one comes before it. */
  lemma TextOrder(a: Stamp, b: Stamp)
    requires StampOk(a) && StampOk(b)
    ensures TextBefore(a, b) <==>
      if a.second == b.second && (ProperPrefix(a.fraction, b.fraction) || ProperPrefix(b.fraction, a.fraction)) then Earlier(b, a)
      else Earlier(a, b)
  {
    FractionOrder(a.fraction, b.fraction);
    FractionOrder(b.fraction, a.fraction);
    TailOrder(a, b);
    hide Worth, Digits, ProperPrefix, Tail;
  }

  /** Apart from the dot in front, the tails are the fractions and a letter. */
  lemma TailOrder(a: Stamp, b: Stamp)
    requires StampOk(a) && StampOk(b)
    ensures Text.Less(Tail(a), Tail(b)) <==> Text.Less(a.fraction + "Z", b.fraction + "Z")
  {
    DigitsBeforeZ(a);
    DigitsBeforeZ(b);
    if a.fraction != "" {
      assert Tail(a)[0] == '.' && Tail(a)[1..] == a.fraction + "Z";
    }
    if b.fraction != "" {
      assert Tail(b)[0] == '.' && Tail(b)[1..] == b.fraction + "Z";
    }
    assert "" + "Z" == "Z" && "Z"[1..] == "";
  }

  lemma DigitsBeforeZ(t: Stamp)
    requires StampOk(t)
    ensures t.fraction != "" ==> (t.fraction + "Z")[0] < 'Z'
  {
  }

  /** An artifact kept until a full second is not due half a second later. */
  lemma FullSecondSortsLast(second: int)
    ensures Earlier(Stamp(second, ""), Stamp(second, "5")) && !TextBefore(Stamp(second, ""), Stamp(second, "5"))
  {
    TextOrder(Stamp(second, ""), Stamp(second, "5"));
    assert ProperPrefix("", "5");
    WorthFits("5");
  }

  predicate Counted(rows: map<Id, Row>, id: Id, workflow: string) {
    id in rows && rows[id].workflow == workflow && !rows[id].authoritative
  }

  /** The sizes of a workflow's non-authoritative artifacts among `ids`. */
  ghost function Total(rows: map<Id, Row>, workflow: string, ids: set<Id>): nat {
    if ids == {} then 0 else
      var id :| id in ids;
      Total(rows, workflow, ids - {id}) + if Counted(rows, id, workflow) then rows[id].size else 0
  }

  ghost function Used(rows: map<Id, Row>, workflow: string): nat {
    Total(rows, workflow, rows.Keys)
  }

  lemma {:induction false} TotalSplit(rows: map<Id, Row>, workflow: string, ids: set<Id>, x: Id)
    requires x in ids
    ensures Total(rows, workflow, ids) ==
      Total(rows, workflow, ids - {x}) + if Counted(rows, x, workflow) then rows[x].size else 0
  {
    var id :| id in ids && Total(rows, workflow, ids) ==
      Total(rows, workflow, ids - {id}) + if Counted(rows, id, workflow) then rows[id].size else 0;
    if id != x {
      TotalSplit(rows, workflow, ids - {id}, x);
      TotalSplit(rows, workflow, ids - {x}, id);
      assert ids - {id} - {x} == ids - {x} - {id};
    }
  }

  lemma {:induction false} TotalSame(rows: map<Id, Row>, other: map<Id, Row>, workflow: string, ids: set<Id>)
    requires forall id :: id in ids ==> (id in rows <==> id in other) && (id in rows ==> rows[id] == other[id])
    ensures Total(rows, workflow, ids) == Total(other, workflow, ids)
  {
    if x :| x in ids {
      TotalSplit(rows, workflow, ids, x);
      TotalSplit(other, workflow, ids, x);
      TotalSame(rows, other, workflow, ids - {x});
    }
  }

  /** INSERT OR IGNORE: the first artifact with a content keeps its row. */
  function Inserted(rows: map<Id, Row>, id: Id, row: Row): map<Id, Row> {
    if id in rows then rows else rows[id := row]
  }

  lemma UsedAfterInsert(rows: map<Id, Row>, id: Id, row: Row, workflow: string)
    requires id !in rows
    ensures Used(rows[id := row], workflow) ==
      Used(rows, workflow) + if row.workflow == workflow && !row.authoritative then row.size else 0
  {
    var more := rows[id := row];
    assert more.Keys == rows.Keys + {id} && more.Keys - {id} == rows.Keys;
    TotalSplit(more, workflow, more.Keys, id);
    TotalSame(rows, more, workflow, rows.Keys);
  }

  lemma UsedAfterDelete(rows: map<Id, Row>, id: Id, workflow: string)
    requires id in rows
    ensures Used(rows - {id}, workflow) <= Used(rows, workflow)
  {
    var fewer := rows - {id};
    assert fewer.Keys == rows.Keys - {id};
    TotalSplit(rows, workflow, rows.Keys, id);
    TotalSame(rows, fewer, workflow, fewer.Keys);
  }

  /** The row says what the object is. */
  ghost predicate RowOk(rows: map<Id, Row>, objects: map<string, Object>, id: Id)
    requires id in rows
  {
    && rows[id].digest == id && rows[id].digest in objects && objects[rows[id].digest] == File(id) && rows[id].size == |id|
  }

  ghost predicate QuotaOk(rows: map<Id, Row>) {
    forall w :: Used(rows, w) <= WORKFLOW_QUOTA
  }

  predicate IsProtected(rows: map<Id, Row>, refs: set<Ref>, id: Id) {
    id in rows && (rows[id].authoritative || exists r :: r in refs && r.artifact == id && r.ownerKind == RECEIPT_AUTHORITY)
  }

  /** Whose authority rests on a receipt for one of the artifacts. */
  function Owners(refs: set<Ref>, ids: set<Id>): set<string> {
    set x | x in refs && x.artifact in ids && x.ownerKind == RECEIPT_AUTHORITY :: x.ownerId
  }

  lemma OwnersAre(refs: set<Ref>, ids: set<Id>)
    ensures forall w :: w in Owners(refs, ids) <==>
      exists x :: x in refs && x.ownerKind == "receipt_authority" && x.ownerId == w && x.artifact in ids
  {
  }

  lemma OwnersOfNone(refs: set<Ref>)
    ensures Owners(refs, {}) == {}
  {
  }

  lemma OwnersGrow(refs: set<Ref>, ids: set<Id>, more: set<Id>)
    requires ids <= more
    ensures Owners(refs, ids) <= Owners(refs, more)
  {
  }

  lemma OwnersSplit(refs: set<Ref>, ids: set<Id>, id: Id)
    ensures Owners(refs, ids + {id}) == Owners(refs, ids) + Owners(refs, {id})
  {
  }

  lemma OwnersStay(refs: set<Ref>, fewer: set<Ref>, ids: set<Id>)
    requires forall x: Ref :: x.artifact in ids ==> (x in refs <==> x in fewer)
    ensures Owners(refs, ids) == Owners(fewer, ids)
  {
  }

  lemma ProtectionStays(rows: map<Id, Row>, refs: set<Ref>, fewer: map<Id, Row>, fewerRefs: set<Ref>, id: Id)
    requires id in rows && id in fewer && fewer[id] == rows[id]
    requires forall x: Ref :: x.artifact == id ==> (x in refs <==> x in fewerRefs)
    ensures IsProtected(rows, refs, id) <==> IsProtected(fewer, fewerRefs, id)
  {
  }

  class Store {
    const redact: string -> string
    var rows: map<Id, Row>
    var refs: set<Ref>
    /** The workflows that hold receipt authority. */
    var authority: set<string>
    var objects: map<string, Object>
    /** No effect has failed or been cut off by the process dying. */
    ghost var calm: bool
    /** A statement whose error is ignored has failed: an answer was taken to be zero, or
        authority to be revoked that was not. */
    ghost var unread: bool

    ghost predicate Valid()
      reads this`rows, this`objects, this`unread
    {
      && (forall id :: id in rows ==> RowOk(rows, objects, id))
      && (!unread ==> QuotaOk(rows))
      && (forall d :: d in objects && objects[d].File? ==> objects[d].content == d)
    }

    constructor (redact: string -> string)
      ensures Valid() && rows == map[] && objects == map[]
    {
      this.redact := redact;
      rows, refs, authority, objects := map[], {}, {}, map[];
      calm, unread := true, false;
    }

    method Fault() returns (fails: bool)
      modifies this`calm
      ensures calm == (old(calm) && !fails)
    {
      fails := *;
      if fails {
        calm := false;
      }
    }

    method SumUsed(workflow: string) returns (used: nat)
      modifies this`unread
      ensures (old(unread) ==> unread) && (!unread ==> used == Used(rows, workflow))
    {
      used := 0;
      if * {
        unread := true;
        return;
      }
      var rest := rows.Keys;
      while rest != {}
        invariant unread == old(unread)
        invariant rest <= rows.Keys && used + Total(rows, workflow, rest) == Used(rows, workflow)
        decreases rest
      {
        var id :| id in rest;
        TotalSplit(rows, workflow, rest, id);
        rest := rest - {id};
        if rows[id].workflow == workflow && !rows[id].authoritative {
          used := used + rows[id].size;
        }
      }
    }

    /** Written to a temporary file and renamed: the object is whole or not there. */
    method WriteObject(data: string) returns (r: Outcome)
      requires Valid()
      modifies this`objects, this`calm
      ensures Valid() && r in {Ok, Failed, Killed}
      ensures r != Ok ==> objects == old(objects)
      ensures calm ==> old(calm) && r == if data in old(objects) && old(objects)[data] == Unsafe then Failed else Ok
      ensures r == Ok ==> data in objects && objects[data] == File(data)
      ensures forall d :: d in old(objects) ==> d in objects && objects[d] == old(objects)[d]
    {
      if data in objects {
        return if objects[data].File? then Ok else Failed;
      }
      var fails := Fault();
      if fails {
        return Failed;
      }
      var dies := Fault();
      if dies {
        return Killed;
      }
      objects := objects[data := File(data)];
      r := Ok;
    }

    method InsertRow(id: Id, row: Row)
      requires Valid() && id in objects && objects[id] == File(id) && row.digest == id && row.size == |id|
      requires !unread && !row.authoritative ==> Used(rows, row.workflow) + row.size <= WORKFLOW_QUOTA
      modifies this`rows
      ensures Valid() && rows == Inserted(old(rows), id, row)
    {
      if id !in rows {
        var more := rows[id := row];
        forall w
          ensures !unread ==> Used(more, w) <= WORKFLOW_QUOTA
        {
          UsedAfterInsert(rows, id, row, w);
        }
        rows := more;
      }
    }

    /** Stores a redacted content once; a content that is stored already keeps the row, the
        workflow and the authority it was first stored with. So authority asked for protects the
        content from pruning if and only if the content was not there unprotected before. */
    method Put(workflow: string, kind: string, raw: string, authoritative: bool, now: Stamp) returns (r: Outcome)
      requires Valid()
      modifies this`rows, this`objects, this`calm, this`unread
      ensures Valid() && r in {Ok, Limit, Quota, Failed, Killed} && (old(unread) ==> unread)
      ensures r == Limit <==> |raw| > 16_777_216
      ensures !unread ==> (r == Quota <==>
        |raw| <= 16_777_216 && !authoritative && Used(old(rows), workflow) + |redact(raw)| > 268_435_456)
      ensures calm ==>
        && old(calm) && r != Killed
        && (r == Failed <==> |raw| <= MAX_ARTIFACT && r != Quota && redact(raw) in old(objects) && old(objects)[redact(raw)] == Unsafe)
      ensures r == Ok ==> rows == if redact(raw) in old(rows) then old(rows) else
        old(rows)[redact(raw) := Row(workflow, kind, redact(raw), |redact(raw)|, authoritative, now, Retention(kind, now))]
      ensures r == Ok && redact(raw) !in old(rows) ==> KeptUntil(kind, now, rows[redact(raw)].retainUntil)
      ensures r == Ok ==> redact(raw) in objects && objects[redact(raw)] == File(redact(raw))
      ensures r != Ok ==> rows == old(rows)
      ensures r == Ok && authoritative ==> (IsProtected(rows, refs, redact(raw)) <==>
        (redact(raw) in old(rows) ==> IsProtected(old(rows), refs, redact(raw))))
      ensures forall d :: d in old(objects) ==> d in objects && objects[d] == old(objects)[d]
    {
      if |raw| > MAX_ARTIFACT {
        return Limit;
      }
      var data := redact(raw);
      if !authoritative {
        var used := SumUsed(workflow);
        if used + |data| > WORKFLOW_QUOTA {
          return Quota;
        }
      }
      r := WriteObject(data);
      if r != Ok {
        return;
      }
      var dies := Fault();
      if dies {
        return Killed;
      }
      var refused := Fault();
      if refused {
        return Failed;
      }
      RetentionIs(kind, now);
      InsertRow(data, Row(workflow, kind, data, |data|, authoritative, now, Retention(kind, now)));
    }

    method PutPiece(workflow: string, kind: string, piece: string, now: Stamp) returns (r: Outcome)
      requires Valid() && |piece| <= MAX_ARTIFACT
      modifies this`rows, this`objects, this`calm, this`unread
      ensures Valid() && r in {Ok, Quota, Failed, Killed}
      ensures r == Ok ==> redact(piece) in rows
      ensures calm ==> old(calm) && r != Killed
      ensures forall id :: id in old(rows) ==> id in rows && rows[id] == old(rows)[id]
    {
      hide RowOk, QuotaOk, Used, Retention;
      r := Put(workflow, kind, piece, false, now);
    }

    /** A log of any length goes in as consecutive pieces; an empty one as one empty piece. */
    method PutLog(workflow: string, kind: string, raw: string, now: Stamp) returns (r: Outcome, pieces: seq<string>)
      requires Valid()
      modifies this`rows, this`objects, this`calm, this`unread
      ensures Valid() && r in {Ok, Quota, Failed, Killed}
      ensures r == Ok ==> pieces != [] && Joined(pieces) == raw && (raw == "" <==> pieces[|pieces| - 1] == "")
      ensures r == Ok ==> forall i :: 0 <= i < |pieces| - 1 ==> |pieces[i]| == MAX_ARTIFACT
      ensures r == Ok ==> forall p :: p in pieces ==> |p| <= MAX_ARTIFACT && redact(p) in rows
      ensures calm ==> old(calm) && r != Killed
      ensures forall id :: id in old(rows) ==> id in rows && rows[id] == old(rows)[id]
    {
      hide RowOk, QuotaOk, Used, Joined, AllFull, ButLast;
      var rest := raw;
      pieces := [];
      NoPieces();
      while |rest| > 0
        invariant Valid() && Joined(pieces) + rest == raw && (calm ==> old(calm))
        invariant (rest != "" ==> AllFull(pieces)) && ButLast(pieces)
        invariant if pieces == [] then rest == raw else raw != "" && pieces[|pieces| - 1] != ""
        invariant forall i :: 0 <= i < |pieces| ==> redact(pieces[i]) in rows
        invariant forall id :: id in old(rows) ==> id in rows && rows[id] == old(rows)[id]
        decreases |rest|
      {
        var piece: string;
        piece, rest := CutPiece(rest);
        r := PutPiece(workflow, kind, piece, now);
        if r != Ok {
          return;
        }
        JoinedSnoc(pieces, piece);
        Reassociate(Joined(pieces), piece, rest);
        FullSnoc(pieces, piece);
        pieces := pieces + [piece];
      }
      if |pieces| == 0 {
        r := PutPiece(workflow, kind, "", now);
        if r != Ok {
          return;
        }
        JoinedSnoc([], "");
        FullSnoc([], "");
        pieces := [""];
      }
      ButLastIs(pieces);
      r := Ok;
    }

    method AddRef(artifact: Id, ownerKind: string, ownerId: string) returns (ok: bool)
      requires Valid()
      modifies this`refs
      ensures Valid() && refs == if ok then old(refs) + {Ref(artifact, ownerKind, ownerId)} else old(refs)
      ensures ok <==> artifact in rows
      ensures ok ==> (IsProtected(rows, refs, artifact) <==>
        IsProtected(rows, old(refs), artifact) || ownerKind == "receipt_authority")
    {
      ok := artifact in rows;
      if ok {
        refs := refs + {Ref(artifact, ownerKind, ownerId)};
        assert Ref(artifact, ownerKind, ownerId) in refs;
      }
    }

    /** Deletes one artifact: row and references in one transaction, then the object. */
    method Delete(id: Id) returns (r: Outcome)
      requires Valid() && id in rows
      modifies this`rows, this`refs, this`objects, this`calm
      ensures Valid() && r in {Ok, Failed, Killed} && (calm ==> old(calm) && r == Ok && id !in objects)
      ensures r in {Ok, Killed} ==> rows == old(rows) - {id} && refs == set x | x in old(refs) && x.artifact != id
      ensures r == Failed ==> rows == old(rows) && refs == old(refs) && objects == old(objects)
      ensures forall d :: d in old(objects) && d != id ==> d in objects && objects[d] == old(objects)[d]
      ensures forall d :: d in objects ==> d in old(objects)
    {
      var fails := Fault();
      if fails {
        return Failed;
      }
      var fewer := rows - {id};
      forall w
        ensures !unread ==> Used(fewer, w) <= WORKFLOW_QUOTA
      {
        UsedAfterDelete(rows, id, w);
      }
      refs := set x | x in refs && x.artifact != id;
      rows := fewer;
      var dies := Fault();
      if dies {
        return Killed;
      }
      var stays := Fault();
      if !stays {
        objects := objects - {id};
      }
      r := Ok;
    }

    /** Whether pruning must not take the artifact without revoking the authority behind it. */
    method Guarded(id: Id) returns (guarded: bool)
      requires id in rows
      modifies this`unread
      ensures (old(unread) ==> unread) && (guarded ==> IsProtected(rows, refs, id))
      ensures !unread ==> (guarded <==> IsProtected(rows, refs, id))
    {
      guarded := rows[id].authoritative;
      if * {
        unread := true;
      } else {
        guarded := guarded || exists x :: x in refs && x.artifact == id && x.ownerKind == RECEIPT_AUTHORITY;
      }
    }

    function Due(now: Stamp): set<Id>
      reads this`rows
    {
      set id | id in rows && TextBefore(rows[id].retainUntil, now)
    }

    method PruneOne(id: Id, revokeAuthority: bool) returns (r: Outcome)
      requires Valid() && id in rows
      modifies this`rows, this`refs, this`authority, this`objects, this`calm, this`unread
      ensures Valid() && r in {Ok, Protected, Failed, Killed} && (old(unread) ==> unread)
      ensures r == Protected ==> !revokeAuthority && IsProtected(old(rows), old(refs), id)
      ensures !revokeAuthority && !unread && IsProtected(old(rows), old(refs), id) ==> r == Protected
      ensures !revokeAuthority ==> authority == old(authority)
      ensures authority <= old(authority) && old(authority) - authority <= Owners(old(refs), {id})
      ensures revokeAuthority && !unread ==> authority == old(authority) - Owners(old(refs), {id})
      ensures r in {Ok, Killed} ==> rows == old(rows) - {id} && refs == set x | x in old(refs) && x.artifact != id
      ensures r in {Protected, Failed} ==> rows == old(rows) && refs == old(refs)
      ensures forall d :: d in old(objects) && (d == id ==> id in rows) ==> d in objects && objects[d] == old(objects)[d]
      ensures calm ==> old(calm) && r in {Ok, Protected} && (r == Ok ==> id !in objects)
      ensures forall d :: d in objects ==> d in old(objects)
    {
      hide QuotaOk, Used, RowOk;
      var guarded := Guarded(id);
      if guarded {
        if !revokeAuthority {
          return Protected;
        }
        if * {
          unread := true;
        } else {
          authority := authority - Owners(refs, {id});
        }
      }
      r := Delete(id);
    }

    /** Only artifacts whose time has passed go, and without revocation none that is authoritative or that a
        receipt relies on. */
    method Prune(now: Stamp, revokeAuthority: bool) returns (r: Outcome)
      requires Valid()
      modifies this`rows, this`refs, this`authority, this`objects, this`calm, this`unread
      ensures Valid() && r in {Ok, Protected, Failed, Killed} && (old(unread) ==> unread)
      ensures forall id :: id in rows ==> id in old(rows) && rows[id] == old(rows)[id]
      ensures forall id :: id in old(rows) && id !in rows ==> TextBefore(old(rows)[id].retainUntil, now)
      ensures refs == set x | x in old(refs) && (x.artifact in old(rows) ==> x.artifact in rows)
      ensures forall d :: d in old(objects) && (d in old(rows) ==> d in rows) ==> d in objects && objects[d] == old(objects)[d]
      ensures !revokeAuthority ==> authority == old(authority)
      ensures !revokeAuthority && !unread ==> forall id :: IsProtected(old(rows), old(refs), id) ==>
        id in rows && RowOk(rows, objects, id) && IsProtected(rows, refs, id)
      ensures revokeAuthority && r == Ok && !unread ==> authority == old(authority) - Owners(old(refs), old(Due(now)))
      ensures authority <= old(authority) && old(authority) - authority <= Owners(old(refs), old(Due(now)))
      ensures r == Ok ==> forall id :: id in old(rows) && TextBefore(old(rows)[id].retainUntil, now) ==> id !in rows
      ensures calm ==> old(calm) && r in {Ok, Protected}
      ensures calm ==> forall id :: id in old(rows) && id !in rows ==> id !in objects
      ensures calm && !unread ==> (r == Protected <==> !revokeAuthority && exists id :: id in old(Due(now)) && IsProtected(old(rows), old(refs), id))
    {
      hide QuotaOk, Used, RowOk, IsProtected, Owners;
      var items := Due(now);
      ghost var all := items;
      OwnersOfNone(refs);
      assert all - items == {};
      r := Ok;
      while items != {} && r == Ok
        invariant Valid() && items <= all && (old(unread) ==> unread) && (calm ==> old(calm))
        invariant r in {Ok, Protected, Failed, Killed} && (calm ==> r in {Ok, Protected})
        invariant forall id :: id in rows ==> id in old(rows) && rows[id] == old(rows)[id]
        invariant forall id :: id in old(rows) && id !in rows ==> id in all - items
        invariant r == Ok ==> forall id :: id in all - items ==> id !in rows
        invariant refs == set x | x in old(refs) && (x.artifact in old(rows) ==> x.artifact in rows)
        invariant forall d :: d in old(objects) && (d in old(rows) ==> d in rows) ==> d in objects && objects[d] == old(objects)[d]
        invariant calm ==> forall id :: id in old(rows) && id !in rows ==> id !in objects
        invariant !revokeAuthority ==> authority == old(authority)
        invariant !revokeAuthority && !unread ==> forall id :: id in all && id !in rows ==> !IsProtected(old(rows), old(refs), id)
        invariant authority <= old(authority) && old(authority) - authority <= Owners(old(refs), all - items)
        invariant revokeAuthority && !unread ==> authority == old(authority) - Owners(old(refs), all - items)
        invariant r == Protected ==> !revokeAuthority && exists id :: id in all && IsProtected(old(rows), old(refs), id)
        decreases items
      {
        var id :| id in items;
        ProtectionStays(old(rows), old(refs), rows, refs, id);
        OwnersStay(old(refs), refs, {id});
        OwnersSplit(old(refs), all - items, id);
        ghost var before := authority;
        r := PruneOne(id, revokeAuthority);
        assert old(authority) - authority <= (old(authority) - before) + (before - authority);
        assert all - (items - {id}) == all - items + {id};
        items := items - {id};
      }
      OwnersGrow(old(refs), all - items, all);
      assert r == Ok ==> all - items == all;
      if !revokeAuthority && !unread {
        SurvivorsStand(old(rows), old(refs));
      }
    }

    /** What is protected and still has its row has its object and its references too. */
    lemma SurvivorsStand(before: map<Id, Row>, beforeRefs: set<Ref>)
      requires Valid() && forall id :: id in rows ==> id in before && rows[id] == before[id]
      requires refs == set x | x in beforeRefs && (x.artifact in before ==> x.artifact in rows)
      requires forall id :: id in before && IsProtected(before, beforeRefs, id) ==> id in rows
      ensures forall id :: IsProtected(before, beforeRefs, id) ==>
        id in rows && RowOk(rows, objects, id) && IsProtected(rows, refs, id)
    {
      hide QuotaOk, RowOk;
      forall id | IsProtected(before, beforeRefs, id)
        ensures IsProtected(rows, refs, id)
      {
        ProtectionStays(before, beforeRefs, rows, refs, id);
      }
    }
  }

  predicate AllFull(pieces: seq<string>) {
    forall i :: 0 <= i < |pieces| ==> |pieces[i]| == MAX_ARTIFACT
  }

  /** Only the last piece may be shorter. */
  predicate ButLast(pieces: seq<string>) {
    pieces == [] || (AllFull(pieces[..|pieces| - 1]) && |pieces[|pieces| - 1]| <= MAX_ARTIFACT)
  }

  lemma NoPieces()
    ensures AllFull([]) && ButLast([]) && Joined([]) == ""
  {
  }

  lemma FullSnoc(pieces: seq<string>, p: string)
    requires AllFull(pieces) && |p| <= MAX_ARTIFACT
    ensures ButLast(pieces + [p]) && (|p| == MAX_ARTIFACT ==> AllFull(pieces + [p]))
  {
    assert (pieces + [p])[..|pieces|] == pieces;
  }

  lemma ButLastIs(pieces: seq<string>)
    requires ButLast(pieces)
    ensures forall i :: 0 <= i < |pieces| - 1 ==> |pieces[i]| == MAX_ARTIFACT
    ensures forall p :: p in pieces ==> |p| <= MAX_ARTIFACT
  {
    if pieces != [] {
      var rest := pieces[..|pieces| - 1];
      assert forall i :: 0 <= i < |rest| ==> pieces[i] == rest[i];
    }
  }

  function Joined(pieces: seq<string>): string {
    if pieces == [] then "" else Joined(pieces[..|pieces| - 1]) + pieces[|pieces| - 1]
  }

  lemma Reassociate(a: string, b: string, c: string)
    ensures a + b + c == a + (b + c)
  {
  }

  /** The first piece is as long as it may be, or all there is. */
  method CutPiece(raw: string) returns (piece: string, rest: string)
    requires raw != ""
    ensures piece + rest == raw && piece != "" && |piece| <= MAX_ARTIFACT && (rest != "" ==> |piece| == MAX_ARTIFACT)
  {
    var n := if |raw| > MAX_ARTIFACT then MAX_ARTIFACT else |raw|;
    piece, rest := raw[..n], raw[n..];
  }

  lemma JoinedSnoc(pieces: seq<string>, p: string)
    ensures Joined(pieces + [p]) == Joined(pieces) + p
  {
    assert (pieces + [p])[..|pieces|] == pieces;
  }
}
