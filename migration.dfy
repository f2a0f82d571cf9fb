/**
 * The re-keying migration of utils/migrate.py (`main`, between `BEGIN` and
 * `COMMIT`/`ROLLBACK`): blank buildings are backfilled to "Unassigned",
 * every row's fingerprint is recomputed, a fingerprint already in use is
 * salted until it is free, and the staged `(new_hash, rowid)` updates are
 * applied all together or not at all.
 *
 * The `entries` table is an in-memory sequence of rows; SQLite, argparse
 * and printing are not modelled.
 */
module Migration {
  import opened PyText
  import opened Fingerprint

  /** One row of `SELECT rowid, hash, name, room, building FROM entries`; None is SQL NULL. */
  datatype Row = Row(rowid: int, hash: string, name: string, room: Option<string>, building: Option<string>)

  /** One staged `(new_hash, rowid)` pair. */
  datatype Update = Update(newHash: string, rowid: int)

  /**
   * A fingerprint function: name, room, building and salt to fingerprint.
   * The migration uses `compute_hash` (`Hasher`); the planning lemmas below
   * hold for any such function.
   */
  type Fingerprinter = (string, Option<string>, Option<string>, int) -> string

  /** `compute_hash` over a given SHA-256. */
  function Hasher(digest: Digest): Fingerprinter {
    (name, room, building, salt) => ComputeHash(digest, name, room, building, salt)
  }

  /** The fingerprint of a row for a salt: `compute_hash(name, room, building, salt)`. */
  function RowHash(fp: Fingerprinter, r: Row, salt: int): string {
    fp(r.name, r.room, r.building, salt)
  }

  /** `{h[0] for h in SELECT hash FROM entries}`. */
  function Hashes(rows: seq<Row>): set<string> {
    set r | r in rows :: r.hash
  }

  function RowIds(rows: seq<Row>): set<int> {
    set r | r in rows :: r.rowid
  }

  /** SQLite guarantees that no two rows share a rowid. */
  ghost predicate RowidsDistinct(rows: seq<Row>) {
    forall i, j :: 0 <= i < j < |rows| ==> rows[i].rowid != rows[j].rowid
  }

  /** No two rows share a fingerprint. */
  ghost predicate HashesDistinct(rows: seq<Row>) {
    forall i, j :: 0 <= i < j < |rows| ==> rows[i].hash != rows[j].hash
  }

  // ---------------------------------------------------------------------------
  // Step 3: backfill the building column
  // ---------------------------------------------------------------------------

  /** SQL `TRIM(x) = ''`: without arguments TRIM removes spaces only. */
  predicate SqlBlank(s: string) {
    forall i :: 0 <= i < |s| ==> s[i] == ' '
  }

  /** `SET building = 'Unassigned' WHERE building IS NULL OR TRIM(building) = ''`, for one value. */
  function BackfillBuilding(b: Option<string>): (r: Option<string>)
    ensures r.Some? && !SqlBlank(r.value)
    ensures b.Some? && !SqlBlank(b.value) ==> r == b
  {
    if b.None? || SqlBlank(b.value) then assert NoBuilding[0] == 'U'; Some(NoBuilding) else b
  }

  /** The backfill `UPDATE` over the whole table. */
  function Backfill(rows: seq<Row>): (r: seq<Row>)
    ensures |r| == |rows|
  {
    seq(|rows|, i requires 0 <= i < |rows| => rows[i].(building := BackfillBuilding(rows[i].building)))
  }

  /**
   * After the backfill every building is present and not blank, a building
   * that was already so is unchanged, and no other column changes.
   */
  lemma BackfillFillsBuildings(rows: seq<Row>)
    ensures forall i :: 0 <= i < |rows| ==>
      var r := Backfill(rows)[i];
      && r.building.Some? && !SqlBlank(r.building.value)
      && r.(building := rows[i].building) == rows[i]
      && (rows[i].building.Some? && !SqlBlank(rows[i].building.value) ==> r == rows[i])
  {
    assert !SqlBlank(NoBuilding) by { assert NoBuilding[0] != ' '; }
  }

  /** The backfill keeps every rowid and every stored hash. */
  lemma BackfillKeepsKeys(rows: seq<Row>)
    ensures RowidsDistinct(rows) ==> RowidsDistinct(Backfill(rows))
    ensures HashesDistinct(rows) ==> HashesDistinct(Backfill(rows))
    ensures Hashes(Backfill(rows)) == Hashes(rows)
  {
    var b := Backfill(rows);
    assert forall i :: 0 <= i < |b| ==> b[i].rowid == rows[i].rowid && b[i].hash == rows[i].hash;
    forall h | h in Hashes(rows) ensures h in Hashes(b) {
      var i :| 0 <= i < |rows| && rows[i].hash == h;
      assert b[i] in b;
    }
  }

  lemma BackfillKeepsBuildingValue(b: Option<string>)
    ensures BuildingValue(BackfillBuilding(b)) == BuildingValue(b)
  {
    if b.Some? && SqlBlank(b.value) {
      assert AllSpace(b.value);
      StripEmptyIffSpace(b.value);
    }
    if b.None? || SqlBlank(b.value) {
      StripTrimmed("");
      StripTrimmed(NoBuilding);
    }
  }

  /**
   * The backfill changes no row's fingerprint: compute_hash already reads a
   * NULL or blank building as "Unassigned".
   */
  lemma BackfillKeepsFingerprints(digest: Digest, rows: seq<Row>, i: nat, salt: int)
    requires i < |rows|
    ensures RowHash(Hasher(digest), Backfill(rows)[i], salt) == RowHash(Hasher(digest), rows[i], salt)
  {
    BackfillKeepsBuildingValue(rows[i].building);
    var k := Key(rows[i].name, rows[i].room, rows[i].building, salt);
    assert Key(rows[i].name, rows[i].room, Backfill(rows)[i].building, salt) == k;
  }

  // ---------------------------------------------------------------------------
  // Step 4: the salt search
  // ---------------------------------------------------------------------------

  datatype Search = Found(salt: nat, hash: string) | Exhausted

  /**
   * The salt loop, as this model runs it: salts are tried upwards from
   * `salt` until the row's fingerprint is outside `taken` or is the row's
   * own stored hash. After |taken| + 1 candidates it gives up: by
   * `GiveUpMeansCollision` that happens only when two salts of the row
   * give the same fingerprint.
   */
  function FreeSalt(fp: Fingerprinter, r: Row, taken: set<string>, salt: nat): (res: Search)
    requires salt <= |taken|
    ensures res.Found? ==> salt <= res.salt <= |taken| && res.hash == RowHash(fp, r, res.salt)
    ensures res.Found? ==> res.hash !in taken || res.hash == r.hash
    decreases |taken| - salt
  {
    var h := RowHash(fp, r, salt);
    if h !in taken || h == r.hash then Found(salt, h)
    else if salt == |taken| then Exhausted
    else FreeSalt(fp, r, taken, salt + 1)
  }

  /**
   * The search finds the first salt from `salt` on whose fingerprint is
   * free or the row's own; when it gives up, every salt it tried was taken
   * by another fingerprint.
   */
  lemma {:induction false} FreeSaltSpec(fp: Fingerprinter, r: Row, taken: set<string>, salt: nat)
    requires salt <= |taken|
    ensures var res := FreeSalt(fp, r, taken, salt);
      && (res.Found? ==> salt <= res.salt <= |taken| && res.hash == RowHash(fp, r, res.salt))
      && (res.Found? ==> res.hash !in taken || res.hash == r.hash)
      && (res.Found? ==> forall s :: salt <= s < res.salt ==> RowHash(fp, r, s) in taken && RowHash(fp, r, s) != r.hash)
      && (res.Exhausted? ==> forall s :: salt <= s <= |taken| ==> RowHash(fp, r, s) in taken && RowHash(fp, r, s) != r.hash)
    decreases |taken| - salt
  {
    var h := RowHash(fp, r, salt);
    if h in taken && h != r.hash && salt < |taken| {
      FreeSaltSpec(fp, r, taken, salt + 1);
    }
  }

  /**
   * The salt loop of utils/migrate.py exactly as written: it stops only at a
   * fingerprint outside `taken`, even when the candidate is the row's own
   * stored hash (bounded like `FreeSalt`).
   */
  function FreeSaltAsWritten(fp: Fingerprinter, r: Row, taken: set<string>, salt: nat): (res: Search)
    requires salt <= |taken|
    ensures res.Found? ==> salt <= res.salt <= |taken| && res.hash == RowHash(fp, r, res.salt) && res.hash !in taken
    decreases |taken| - salt
  {
    var h := RowHash(fp, r, salt);
    if h !in taken then Found(salt, h)
    else if salt == |taken| then Exhausted
    else FreeSaltAsWritten(fp, r, taken, salt + 1)
  }

  /** The search as written finds the first salt from `salt` on whose fingerprint is free. */
  lemma {:induction false} FreeSaltAsWrittenSpec(fp: Fingerprinter, r: Row, taken: set<string>, salt: nat)
    requires salt <= |taken|
    ensures var res := FreeSaltAsWritten(fp, r, taken, salt);
      && (res.Found? ==> salt <= res.salt <= |taken| && res.hash == RowHash(fp, r, res.salt) && res.hash !in taken)
      && (res.Found? ==> forall s :: salt <= s < res.salt ==> RowHash(fp, r, s) in taken)
      && (res.Exhausted? ==> forall s :: salt <= s <= |taken| ==> RowHash(fp, r, s) in taken)
    decreases |taken| - salt
  {
    if RowHash(fp, r, salt) in taken && salt < |taken| {
      FreeSaltAsWrittenSpec(fp, r, taken, salt + 1);
    }
  }

  /** If `m` salts all land in a set of fewer than `m` fingerprints, two of them collide. */
  lemma {:induction false} Pigeonhole(fp: Fingerprinter, r: Row, m: nat, taken: set<string>)
    requires |taken| < m
    requires forall s :: 0 <= s < m ==> RowHash(fp, r, s) in taken
    ensures exists s1, s2 :: 0 <= s1 < s2 < m && RowHash(fp, r, s1) == RowHash(fp, r, s2)
    decreases m
  {
    var h := RowHash(fp, r, m - 1);
    if s1 :| 0 <= s1 < m - 1 && RowHash(fp, r, s1) == h {
      assert RowHash(fp, r, s1) == RowHash(fp, r, m - 1);
    } else {
      var rest := taken - {h};
      assert |rest| == |taken| - 1;
      forall s | 0 <= s < m - 1 ensures RowHash(fp, r, s) in rest {
        assert RowHash(fp, r, s) != h;
      }
      Pigeonhole(fp, r, m - 1, rest);
    }
  }

  /**
   * The bounded search gives up only when the row has two salts with the
   * same 12-character fingerprint; with a fp that separates them, the
   * unbounded loop of the source and this search agree.
   */
  lemma GiveUpMeansCollision(loop: SaltLoop, fp: Fingerprinter, r: Row, taken: set<string>)
    requires Decide(loop, fp, r, taken).GiveUp?
    ensures exists s1, s2 :: 0 <= s1 < s2 <= |taken| && RowHash(fp, r, s1) == RowHash(fp, r, s2)
  {
    DecideSpec(loop, fp, r, taken);
    Pigeonhole(fp, r, |taken| + 1, taken);
  }

  /**
   * A row whose stored hash is its first salted fingerprint that is either
   * free or its own is found at that salt, so it is left as it is.
   */
  lemma {:induction false} SettledRowKept(fp: Fingerprinter, r: Row, taken: set<string>, s: nat, from: nat)
    requires from <= s <= |taken|
    requires r.hash == RowHash(fp, r, s)
    requires forall t :: from <= t < s ==> RowHash(fp, r, t) in taken && RowHash(fp, r, t) != r.hash
    ensures FreeSalt(fp, r, taken, from) == Found(s, r.hash)
    decreases s - from
  {
    if from < s {
      SettledRowKept(fp, r, taken, s, from + 1);
    }
  }

  // ---------------------------------------------------------------------------
  // Step 4: the plan
  // ---------------------------------------------------------------------------

  /** What the loop does with one row, given the collision set so far. */
  datatype Decision = Keep | Rekey(salt: nat, hash: string) | GiveUp

  /**
   * Which salt loop runs: the loop of utils/migrate.py as written, or the
   * corrected loop that also stops at the row's own stored hash.
   */
  datatype SaltLoop = AsWritten | StopAtOwn

  /**
   * One iteration of the loop over the rows: a row whose salt-0
   * fingerprint is its stored hash is skipped; otherwise the salt search
   * picks a fingerprint. The corrected loop keeps the row when that
   * fingerprint is its own hash.
   */
  function Decide(loop: SaltLoop, fp: Fingerprinter, r: Row, taken: set<string>): (d: Decision)
    ensures RowHash(fp, r, 0) == r.hash ==> d.Keep?
    ensures d.Rekey? ==> d.hash == RowHash(fp, r, d.salt) && d.hash !in taken
  {
    if RowHash(fp, r, 0) == r.hash then Keep
    else if loop.AsWritten? then
      match FreeSaltAsWritten(fp, r, taken, 0)
      case Exhausted => GiveUp
      case Found(s, h) => Rekey(s, h)
    else
      match FreeSalt(fp, r, taken, 0)
      case Exhausted => GiveUp
      case Found(s, h) => if h == r.hash then Keep else Rekey(s, h)
  }

  /**
   * A row whose salt-0 fingerprint is its stored hash is kept, and the
   * loop as written keeps no other row; a re-keyed row gets its first
   * salted fingerprint outside the collision set (the corrected loop also
   * never re-keys a row to its own hash); a row is given up on only when
   * all of its first |taken| + 1 salted fingerprints are in the collision
   * set, and for the corrected loop none of them is its own hash.
   */
  lemma DecideSpec(loop: SaltLoop, fp: Fingerprinter, r: Row, taken: set<string>)
    ensures var d := Decide(loop, fp, r, taken);
      && (RowHash(fp, r, 0) == r.hash ==> d == Keep)
      && (loop.AsWritten? && d.Keep? ==> RowHash(fp, r, 0) == r.hash)
      && (d.Rekey? ==> d.hash == RowHash(fp, r, d.salt) && d.hash !in taken)
      && (d.Rekey? && loop.StopAtOwn? ==> d.hash != r.hash)
      && (d.Rekey? ==> forall s :: 0 <= s < d.salt ==> RowHash(fp, r, s) in taken)
      && (d.GiveUp? ==> forall s :: 0 <= s <= |taken| ==> RowHash(fp, r, s) in taken)
      && (d.GiveUp? && loop.StopAtOwn? ==> forall s :: 0 <= s <= |taken| ==> RowHash(fp, r, s) != r.hash)
  {
    FreeSaltSpec(fp, r, taken, 0);
    FreeSaltAsWrittenSpec(fp, r, taken, 0);
  }

  /** The staged updates with the final collision set, or the row whose search gave up. */
  datatype Plan = Planned(updates: seq<Update>, reserved: set<string>) | Conflict(rowid: int)

  function Prepend(us: seq<Update>, p: Plan): Plan {
    match p
    case Conflict(_) => p
    case Planned(vs, t) => Planned(us + vs, t)
  }

  lemma PrependTwice(us: seq<Update>, vs: seq<Update>, p: Plan)
    ensures Prepend(us, Prepend(vs, p)) == Prepend(us + vs, p)
  {
    if p.Planned? {
      assert us + (vs + p.updates) == us + vs + p.updates;
    }
  }

  /**
   * The loop over the rows: each re-keyed row reserves its new fingerprint
   * in the collision set and stages it for its own rowid; a row whose
   * search gives up aborts the run.
   */
  function PlanRows(loop: SaltLoop, fp: Fingerprinter, rows: seq<Row>, taken: set<string>): (p: Plan)
    ensures p.Planned? ==> |p.updates| <= |rows| && taken <= p.reserved
    ensures p.Conflict? ==> p.rowid in RowIds(rows)
    decreases |rows|
  {
    if rows == [] then Planned([], taken)
    else
      match Decide(loop, fp, rows[0], taken)
      case Keep => PlanRows(loop, fp, rows[1..], taken)
      case GiveUp => Conflict(rows[0].rowid)
      case Rekey(_, h) => Prepend([Update(h, rows[0].rowid)], PlanRows(loop, fp, rows[1..], taken + {h}))
  }

  /** Lines 75-85 for one row: the salt-0 check and the salt loop, as written. */
  method SearchSalt(fp: Fingerprinter, r: Row, existing: set<string>) returns (d: Decision)
    ensures d == Decide(AsWritten, fp, r, existing)
  {
    var salt: nat := 0;
    var newHash := RowHash(fp, r, salt);
    if newHash == r.hash {
      return Keep;
    }
    while newHash in existing
      invariant salt <= |existing|
      invariant newHash == RowHash(fp, r, salt)
      invariant FreeSaltAsWritten(fp, r, existing, salt) == FreeSaltAsWritten(fp, r, existing, 0)
      decreases |existing| - salt
    {
      if salt == |existing| {
        return GiveUp;
      }
      salt := salt + 1;
      newHash := RowHash(fp, r, salt);
    }
    return Rekey(salt, newHash);
  }

  lemma PlanRowsStep(loop: SaltLoop, fp: Fingerprinter, rows: seq<Row>, i: nat, taken: set<string>)
    requires i < |rows|
    ensures var d := Decide(loop, fp, rows[i], taken);
      PlanRows(loop, fp, rows[i..], taken) ==
        if d.Keep? then PlanRows(loop, fp, rows[i + 1..], taken)
        else if d.GiveUp? then Conflict(rows[i].rowid)
        else Prepend([Update(d.hash, rows[i].rowid)], PlanRows(loop, fp, rows[i + 1..], taken + {d.hash}))
  {
    assert rows[i..][0] == rows[i] && rows[i..][1..] == rows[i + 1..];
  }

  /** Lines 67-85: the collision set, the staged list and the loop over the rows. */
  method PlanUpdates(fp: Fingerprinter, rows: seq<Row>) returns (plan: Plan)
    ensures plan == PlanRows(AsWritten, fp, rows, Hashes(rows))
  {
    var existing := Hashes(rows);
    var updates: seq<Update> := [];
    var i := 0;
    while i < |rows|
      invariant 0 <= i <= |rows|
      invariant PlanRows(AsWritten, fp, rows, Hashes(rows)) == Prepend(updates, PlanRows(AsWritten, fp, rows[i..], existing))
    {
      var r := rows[i];
      PlanRowsStep(AsWritten, fp, rows, i, existing);
      var d := SearchSalt(fp, r, existing);
      if d.GiveUp? {
        return Conflict(r.rowid);
      } else if d.Rekey? {
        var u := Update(d.hash, r.rowid);
        PrependTwice(updates, [u], PlanRows(AsWritten, fp, rows[i + 1..], existing + {d.hash}));
        existing := existing + {d.hash};
        updates := updates + [u];
      }
      i := i + 1;
    }
    assert updates + [] == updates;
    plan := Planned(updates, existing);
  }

  // ---------------------------------------------------------------------------
  // Step 5: applying the plan
  // ---------------------------------------------------------------------------

  /** `UPDATE entries SET hash = ? WHERE rowid = ?`. */
  function ApplyUpdate(rows: seq<Row>, u: Update): (r: seq<Row>)
    ensures |r| == |rows|
    ensures forall i :: 0 <= i < |r| ==> r[i] == (if rows[i].rowid == u.rowid then rows[i].(hash := u.newHash) else rows[i])
  {
    seq(|rows|, i requires 0 <= i < |rows| =>
      if rows[i].rowid == u.rowid then rows[i].(hash := u.newHash) else rows[i])
  }

  /** The staged updates applied in order. */
  function ApplyAll(rows: seq<Row>, us: seq<Update>): (r: seq<Row>)
    ensures |r| == |rows|
    decreases |us|
  {
    if us == [] then rows else ApplyUpdate(ApplyAll(rows, us[..|us| - 1]), us[|us| - 1])
  }

  lemma {:induction false} ApplyAllFirst(rows: seq<Row>, u: Update, us: seq<Update>)
    ensures ApplyAll(rows, [u] + us) == ApplyAll(ApplyUpdate(rows, u), us)
    decreases |us|
  {
    if us == [] {
      assert ([u] + us)[..0] == [];
    } else {
      var init := us[..|us| - 1];
      assert ([u] + us)[..|us|] == [u] + init;
      ApplyAllFirst(rows, u, init);
    }
  }

  lemma {:induction false} ApplyAllPassesOver(x: Row, rest: seq<Row>, us: seq<Update>)
    requires forall k :: 0 <= k < |us| ==> us[k].rowid != x.rowid
    ensures ApplyAll([x] + rest, us) == [x] + ApplyAll(rest, us)
    decreases |us|
  {
    if us != [] {
      var init := us[..|us| - 1];
      ApplyAllPassesOver(x, rest, init);
      var u := us[|us| - 1];
      assert ApplyUpdate([x] + ApplyAll(rest, init), u) == [x] + ApplyUpdate(ApplyAll(rest, init), u);
    }
  }

  lemma ApplyUpdateHead(x: Row, rest: seq<Row>, h: string)
    requires x.rowid !in RowIds(rest)
    ensures ApplyUpdate([x] + rest, Update(h, x.rowid)) == [x.(hash := h)] + rest
  {
    var r := ApplyUpdate([x] + rest, Update(h, x.rowid));
    forall i | 1 <= i < |r| ensures r[i] == rest[i - 1] {
      assert rest[i - 1] in rest;
    }
  }

  // ---------------------------------------------------------------------------
  // What the plan guarantees
  // ---------------------------------------------------------------------------

  /** Facts about the first row and the rest of a table with distinct rowids. */
  lemma SplitFirst(rows: seq<Row>)
    requires rows != [] && RowidsDistinct(rows)
    ensures rows == [rows[0]] + rows[1..]
    ensures rows[0].rowid !in RowIds(rows[1..])
    ensures RowidsDistinct(rows[1..])
    ensures Hashes(rows[1..]) <= Hashes(rows) && rows[0].hash in Hashes(rows)
    ensures HashesDistinct(rows) ==> HashesDistinct(rows[1..]) && rows[0].hash !in Hashes(rows[1..])
  {
    var x, rest := rows[0], rows[1..];
    forall y | y in rest ensures y.rowid != x.rowid && y in rows && (HashesDistinct(rows) ==> y.hash != x.hash) {
      var j :| 0 <= j < |rest| && rest[j] == y;
      assert rows[j + 1] == y;
    }
  }

  /** Every staged update targets a rowid of the planned rows. */
  lemma {:induction false} PlanTargetsRows(loop: SaltLoop, fp: Fingerprinter, rows: seq<Row>, taken: set<string>)
    requires PlanRows(loop, fp, rows, taken).Planned?
    ensures forall k :: 0 <= k < |PlanRows(loop, fp, rows, taken).updates| ==>
              PlanRows(loop, fp, rows, taken).updates[k].rowid in RowIds(rows)
    decreases |rows|
  {
    if rows != [] {
      assert forall x :: x in rows[1..] ==> x in rows;
      match Decide(loop, fp, rows[0], taken)
      case Keep => PlanTargetsRows(loop, fp, rows[1..], taken);
      case Rekey(_, h) => PlanTargetsRows(loop, fp, rows[1..], taken + {h});
    }
  }

  function NewHashes(us: seq<Update>): set<string> {
    set u | u in us :: u.newHash
  }

  /** Fingerprints staged in order, each outside `taken` and every one staged before it. */
  ghost predicate FreshInOrder(us: seq<Update>, taken: set<string>) {
    && (forall k :: 0 <= k < |us| ==> us[k].newHash !in taken)
    && (forall j, k :: 0 <= j < k < |us| ==> us[j].newHash != us[k].newHash)
  }

  lemma FreshInOrderCons(u: Update, us: seq<Update>, taken: set<string>)
    requires u.newHash !in taken && FreshInOrder(us, taken + {u.newHash})
    ensures FreshInOrder([u] + us, taken)
    ensures NewHashes([u] + us) == {u.newHash} + NewHashes(us)
  {
    var vs := [u] + us;
    forall k | 0 < k < |vs| ensures vs[k] == us[k - 1] { }
    assert forall v :: v in vs <==> v == u || v in us;
  }

  /**
   * Every staged fingerprint was outside the collision set when it was
   * chosen: outside the starting set, and different from every fingerprint
   * staged before it. The final collision set is the starting set plus the
   * staged fingerprints.
   */
  lemma {:induction false} PlanReservesFreshHashes(loop: SaltLoop, fp: Fingerprinter, rows: seq<Row>, taken: set<string>)
    requires PlanRows(loop, fp, rows, taken).Planned?
    ensures FreshInOrder(PlanRows(loop, fp, rows, taken).updates, taken)
    ensures PlanRows(loop, fp, rows, taken).reserved == taken + NewHashes(PlanRows(loop, fp, rows, taken).updates)
    decreases |rows|
  {
    if rows == [] {
      assert NewHashes([]) == {};
    } else {
      var d := Decide(loop, fp, rows[0], taken);
      if d.Keep? {
        PlanReservesFreshHashes(loop, fp, rows[1..], taken);
      } else {
        assert d.Rekey?;
        PlanReservesFreshHashes(loop, fp, rows[1..], taken + {d.hash});
        ReservesFreshRekey(loop, fp, rows, taken);
      }
    }
  }

  /** The step of `PlanReservesFreshHashes` for a first row that is rekeyed. */
  lemma ReservesFreshRekey(loop: SaltLoop, fp: Fingerprinter, rows: seq<Row>, taken: set<string>)
    requires rows != [] && Decide(loop, fp, rows[0], taken).Rekey?
    requires PlanRows(loop, fp, rows, taken).Planned?
    requires var h := Decide(loop, fp, rows[0], taken).hash;
      && FreshInOrder(PlanRows(loop, fp, rows[1..], taken + {h}).updates, taken + {h})
      && PlanRows(loop, fp, rows[1..], taken + {h}).reserved
         == taken + {h} + NewHashes(PlanRows(loop, fp, rows[1..], taken + {h}).updates)
    ensures FreshInOrder(PlanRows(loop, fp, rows, taken).updates, taken)
    ensures PlanRows(loop, fp, rows, taken).reserved == taken + NewHashes(PlanRows(loop, fp, rows, taken).updates)
  {
    var h := Decide(loop, fp, rows[0], taken).hash;
    var rest := PlanRows(loop, fp, rows[1..], taken + {h});
    FreshInOrderCons(Update(h, rows[0].rowid), rest.updates, taken);
  }

  /** `u` sets some row of `rows` to one of that row's own salted fingerprints. */
  ghost predicate FromOwnRow(fp: Fingerprinter, rows: seq<Row>, u: Update) {
    exists i, salt: nat :: 0 <= i < |rows| && rows[i].rowid == u.rowid && u.newHash == RowHash(fp, rows[i], salt)
  }

  /** No two updates target the same rowid, and each comes from the row it targets. */
  ghost predicate OneUpdatePerRow(fp: Fingerprinter, rows: seq<Row>, us: seq<Update>) {
    && (forall j, k :: 0 <= j < k < |us| ==> us[j].rowid != us[k].rowid)
    && (forall k :: 0 <= k < |us| ==> FromOwnRow(fp, rows, us[k]))
  }

  /**
   * On a table with distinct rowids the plan stages at most one update per
   * row, and each update writes one of that row's own salted fingerprints.
   */
  lemma {:induction false} PlanOneUpdatePerRow(loop: SaltLoop, fp: Fingerprinter, rows: seq<Row>, taken: set<string>)
    requires RowidsDistinct(rows)
    requires PlanRows(loop, fp, rows, taken).Planned?
    ensures OneUpdatePerRow(fp, rows, PlanRows(loop, fp, rows, taken).updates)
    decreases |rows|
  {
    if rows != [] {
      SplitFirst(rows);
      var d := Decide(loop, fp, rows[0], taken);
      if d.Keep? {
        var us := PlanRows(loop, fp, rows[1..], taken).updates;
        PlanOneUpdatePerRow(loop, fp, rows[1..], taken);
        OneUpdatePerRowWidens(fp, rows[0], rows[1..], us);
      } else {
        assert d.Rekey?;
        PlanOneUpdatePerRow(loop, fp, rows[1..], taken + {d.hash});
        PlanTargetsRows(loop, fp, rows[1..], taken + {d.hash});
        OneUpdatePerRowRekey(loop, fp, rows, taken);
      }
    }
  }

  lemma OneUpdatePerRowWidens(fp: Fingerprinter, x: Row, rest: seq<Row>, us: seq<Update>)
    requires OneUpdatePerRow(fp, rest, us)
    ensures OneUpdatePerRow(fp, [x] + rest, us)
  {
    forall k | 0 <= k < |us| ensures FromOwnRow(fp, [x] + rest, us[k]) {
      var i, salt: nat :| 0 <= i < |rest| && rest[i].rowid == us[k].rowid && us[k].newHash == RowHash(fp, rest[i], salt);
      assert ([x] + rest)[i + 1] == rest[i];
    }
  }

  /** The step of `PlanOneUpdatePerRow` for a first row that is rekeyed. */
  lemma OneUpdatePerRowRekey(loop: SaltLoop, fp: Fingerprinter, rows: seq<Row>, taken: set<string>)
    requires rows != [] && rows == [rows[0]] + rows[1..] && Decide(loop, fp, rows[0], taken).Rekey?
    requires PlanRows(loop, fp, rows, taken).Planned?
    requires rows[0].rowid !in RowIds(rows[1..])
    requires var rest := PlanRows(loop, fp, rows[1..], taken + {Decide(loop, fp, rows[0], taken).hash});
      && OneUpdatePerRow(fp, rows[1..], rest.updates)
      && (forall k :: 0 <= k < |rest.updates| ==> rest.updates[k].rowid in RowIds(rows[1..]))
    ensures OneUpdatePerRow(fp, rows, PlanRows(loop, fp, rows, taken).updates)
  {
    var d := Decide(loop, fp, rows[0], taken);
    var u := Update(d.hash, rows[0].rowid);
    var rest := PlanRows(loop, fp, rows[1..], taken + {d.hash}).updates;
    OneUpdatePerRowWidens(fp, rows[0], rows[1..], rest);
    assert FromOwnRow(fp, rows, u) by {
      assert rows[0].rowid == u.rowid && u.newHash == RowHash(fp, rows[0], d.salt);
    }
    var us := [u] + rest;
    assert PlanRows(loop, fp, rows, taken).updates == us;
    forall k | 0 < k < |us| ensures us[k] == rest[k - 1] && us[k].rowid != u.rowid {
      assert rest[k - 1].rowid in RowIds(rows[1..]);
    }
  }

  /**
   * `after` is what the migration may make of `before`: only the hash may
   * change; a row whose salt-0 fingerprint is its stored hash is untouched;
   * a new hash is one of the row's own salted fingerprints and was not in
   * the collision set.
   */
  ghost predicate Rekeyed(fp: Fingerprinter, before: Row, after: Row, taken: set<string>) {
    && after.(hash := before.hash) == before
    && (RowHash(fp, before, 0) == before.hash ==> after == before)
    && (after.hash != before.hash ==>
          after.hash !in taken && exists s: nat :: after.hash == RowHash(fp, before, s))
  }

  /** Every row of `rows` became its row of `after` as `Rekeyed` allows, and distinct hashes stayed distinct. */
  ghost predicate Outcome(fp: Fingerprinter, rows: seq<Row>, after: seq<Row>, taken: set<string>) {
    && |after| == |rows|
    && (forall i :: 0 <= i < |rows| ==> Rekeyed(fp, rows[i], after[i], taken))
    && (HashesDistinct(rows) ==> HashesDistinct(after))
  }

  lemma OutcomeKept(fp: Fingerprinter, x: Row, rest: seq<Row>, after: seq<Row>, taken: set<string>)
    requires Outcome(fp, rest, after, taken)
    requires x.hash in taken
    requires HashesDistinct([x] + rest) ==> x.hash !in Hashes(rest)
    ensures Outcome(fp, [x] + rest, [x] + after, taken)
  {
    var rows, after' := [x] + rest, [x] + after;
    forall i | 0 < i < |rows| ensures rows[i] == rest[i - 1] && after'[i] == after[i - 1] { }
    if HashesDistinct(rows) {
      assert HashesDistinct(rest) by {
        forall i, j | 0 <= i < j < |rest| ensures rest[i].hash != rest[j].hash {
          assert rows[i + 1] == rest[i] && rows[j + 1] == rest[j];
        }
      }
      forall j | 0 < j < |after'| ensures after'[j].hash != x.hash {
        assert rest[j - 1] in rest;
      }
    }
  }

  lemma OutcomeRekeyed(fp: Fingerprinter, x: Row, rest: seq<Row>, after: seq<Row>, taken: set<string>, s: nat, h: string)
    requires Outcome(fp, rest, after, taken + {h})
    requires h == RowHash(fp, x, s) && h !in taken && h != x.hash && RowHash(fp, x, 0) != x.hash
    requires Hashes(rest) <= taken
    ensures Outcome(fp, [x] + rest, [x.(hash := h)] + after, taken)
  {
    var rows, after' := [x] + rest, [x.(hash := h)] + after;
    forall i | 0 < i < |rows| ensures rows[i] == rest[i - 1] && after'[i] == after[i - 1] { }
    assert Rekeyed(fp, x, after'[0], taken);
    forall i | 0 < i < |rows| ensures Rekeyed(fp, rows[i], after'[i], taken) {
      assert Rekeyed(fp, rest[i - 1], after[i - 1], taken + {h});
    }
    if HashesDistinct(rows) {
      assert HashesDistinct(rest) by {
        forall i, j | 0 <= i < j < |rest| ensures rest[i].hash != rest[j].hash {
          assert rows[i + 1] == rest[i] && rows[j + 1] == rest[j];
        }
      }
      forall j | 0 < j < |after'| ensures after'[j].hash != h {
        assert rest[j - 1] in rest;
        assert Rekeyed(fp, rest[j - 1], after[j - 1], taken + {h});
      }
    }
  }

  /**
   * Applying the plan re-keys each row as `Rekeyed` allows, and keeps the
   * fingerprints pairwise distinct when they were before.
   */
  lemma {:induction false} PlanOutcome(loop: SaltLoop, fp: Fingerprinter, rows: seq<Row>, taken: set<string>)
    requires RowidsDistinct(rows)
    requires Hashes(rows) <= taken
    requires PlanRows(loop, fp, rows, taken).Planned?
    ensures Outcome(fp, rows, ApplyAll(rows, PlanRows(loop, fp, rows, taken).updates), taken)
    decreases |rows|
  {
    if rows != [] {
      var x, rest := rows[0], rows[1..];
      SplitFirst(rows);
      match Decide(loop, fp, x, taken)
      case Keep =>
        var us := PlanRows(loop, fp, rest, taken).updates;
        PlanOutcome(loop, fp, rest, taken);
        PlanTargetsRows(loop, fp, rest, taken);
        ApplyAllPassesOver(x, rest, us);
        OutcomeKept(fp, x, rest, ApplyAll(rest, us), taken);
      case Rekey(s, h) =>
        var us := PlanRows(loop, fp, rest, taken + {h}).updates;
        assert x.hash in taken;
        PlanOutcome(loop, fp, rest, taken + {h});
        PlanTargetsRows(loop, fp, rest, taken + {h});
        ApplyAllFirst(rows, Update(h, x.rowid), us);
        ApplyUpdateHead(x, rest, h);
        ApplyAllPassesOver(x.(hash := h), rest, us);
        OutcomeRekeyed(fp, x, rest, ApplyAll(rest, us), taken, s, h);
    }
  }

  /**
   * The fingerprints left by a successful run are pairwise distinct when
   * the stored ones were.
   */
  lemma MigrationKeepsFingerprintsUnique(loop: SaltLoop, fp: Fingerprinter, rows: seq<Row>)
    requires RowidsDistinct(rows) && HashesDistinct(rows)
    requires PlanRows(loop, fp, Backfill(rows), Hashes(Backfill(rows))).Planned?
    ensures HashesDistinct(ApplyAll(Backfill(rows), PlanRows(loop, fp, Backfill(rows), Hashes(Backfill(rows))).updates))
  {
    var b := Backfill(rows);
    BackfillKeepsKeys(rows);
    PlanOutcome(loop, fp, b, Hashes(b));
  }

  /**
   * A table whose every row already carries its first salted fingerprint
   * that is free or its own gets no update at all.
   */
  lemma {:induction false} SettledTableNotRekeyed(fp: Fingerprinter, rows: seq<Row>, taken: set<string>, salts: seq<nat>)
    requires |salts| == |rows|
    requires forall i :: 0 <= i < |rows| ==> salts[i] <= |taken| && rows[i].hash == RowHash(fp, rows[i], salts[i])
    requires forall i, t :: 0 <= i < |rows| && 0 <= t < salts[i] ==>
               RowHash(fp, rows[i], t) in taken && RowHash(fp, rows[i], t) != rows[i].hash
    ensures PlanRows(StopAtOwn, fp, rows, taken) == Planned([], taken)
    decreases |rows|
  {
    if rows != [] {
      SettledRowKept(fp, rows[0], taken, salts[0], 0);
      SettledTableNotRekeyed(fp, rows[1..], taken, salts[1..]);
    }
  }

  // ---------------------------------------------------------------------------
  // The salt loop as written re-salts a settled row
  // ---------------------------------------------------------------------------

  /** A 12-character fingerprint made of one repeated hex character. */
  function DemoHash(c: char): string {
    seq(12, _ => c)
  }

  /** A digest that looks only at the last character of the key. */
  function DemoDigest(k: string): HexDigest {
    if |k| > 0 && k[|k| - 1] == '1' then seq(64, _ => '1')
    else if |k| > 0 && k[|k| - 1] == '2' then seq(64, _ => '2')
    else seq(64, _ => '0')
  }

  /** One of two rows for the same person, room and building. */
  function DemoRow(rowid: int, c: char): Row {
    Row(rowid, DemoHash(c), "Ann", Some("1"), Some("East"))
  }

  /** What the demo digest makes of a key, cut to a fingerprint. */
  lemma DemoDigestPrefix(k: string, c: char)
    requires |k| > 0 && k[|k| - 1] == c
    ensures DemoDigest(k)[..FingerprintLength] == DemoHash(if c == '1' || c == '2' then c else '0')
  {
  }

  lemma LastOfConcat(a: string, b: string)
    requires b != []
    ensures (a + b)[|a + b| - 1] == b[|b| - 1]
  {
  }

  /** The demo row's unsalted key ends with the last letter of "East". */
  lemma DemoFingerprint0()
    ensures RowHash(Hasher(DemoDigest), DemoRow(2, '1'), 0) == DemoHash('0')
  {
    StripTrimmed("East");
    var base := BaseKey("Ann", Some("1"), Some("East"));
    assert base == Strip("Ann") + "::" + RoomValue(Some("1")) + "::" + "East";
    LastOfConcat(Strip("Ann") + "::" + RoomValue(Some("1")) + "::", "East");
    DemoDigestPrefix(base, 't');
  }

  /** The demo row's key for salt 1 or 2 ends with that salt's digit. */
  lemma DemoFingerprintSalted(salt: int)
    requires salt == 1 || salt == 2
    ensures RowHash(Hasher(DemoDigest), DemoRow(2, '1'), salt) == DemoHash(if salt == 1 then '1' else '2')
  {
    var d := IntToString(salt);
    assert d == [DigitChar(salt)];
    var prefix := BaseKey("Ann", Some("1"), Some("East")) + "::salt";
    assert Key("Ann", Some("1"), Some("East"), salt) == prefix + d;
    LastOfConcat(prefix, d);
    DemoDigestPrefix(prefix + d, DigitChar(salt));
  }

  /** `compute_hash` with the demo digest gives the row three different fingerprints for salts 0, 1 and 2. */
  lemma DemoFingerprints()
    ensures RowHash(Hasher(DemoDigest), DemoRow(2, '1'), 0) == DemoHash('0')
    ensures RowHash(Hasher(DemoDigest), DemoRow(2, '1'), 1) == DemoHash('1')
    ensures RowHash(Hasher(DemoDigest), DemoRow(2, '1'), 2) == DemoHash('2')
  {
    DemoFingerprint0();
    DemoFingerprintSalted(1);
    DemoFingerprintSalted(2);
  }

  /**
   * A row that holds its salt-1 fingerprint while its salt-0 fingerprint
   * belongs to another row is settled. The loop as written does not stop
   * at the row's own fingerprint, so it moves the row on to its salt-2
   * fingerprint; the corrected search keeps the row.
   */
  lemma AsWrittenResalts(fp: Fingerprinter, b: Row, taken: set<string>)
    requires |taken| >= 2
    requires RowHash(fp, b, 0) in taken && RowHash(fp, b, 0) != b.hash
    requires b.hash == RowHash(fp, b, 1) && b.hash in taken
    requires RowHash(fp, b, 2) !in taken
    ensures FreeSaltAsWritten(fp, b, taken, 0) == Found(2, RowHash(fp, b, 2))
    ensures Decide(AsWritten, fp, b, taken) == Rekey(2, RowHash(fp, b, 2)) && RowHash(fp, b, 2) != b.hash
    ensures Decide(StopAtOwn, fp, b, taken) == Keep
  {
    assert FreeSaltAsWritten(fp, b, taken, 1) == FreeSaltAsWritten(fp, b, taken, 2);
    assert FreeSalt(fp, b, taken, 0) == FreeSalt(fp, b, taken, 1);
  }

  /** Two rows for the same person, room and building, as a first run leaves them. */
  function DemoRows(): seq<Row> {
    [DemoRow(1, '0'), DemoRow(2, '1')]
  }

  /**
   * A first run over two rows with the same name, room and building leaves
   * the first with its salt-0 fingerprint and the second with its salt-1
   * fingerprint. On the next run the loop as written finds the second row's
   * own fingerprint in the collision set and stages a move to salt 2,
   * although the comment at that loop promises to exclude the row itself;
   * the corrected loop stages nothing.
   */
  lemma AsWrittenResaltsSettledRow()
    ensures var fp, rows := Hasher(DemoDigest), DemoRows();
      && RowHash(fp, rows[0], 0) == rows[0].hash
      && RowHash(fp, rows[1], 1) == rows[1].hash
      && PlanRows(AsWritten, fp, rows, Hashes(rows)) == Planned([Update(DemoHash('2'), 2)], Hashes(rows) + {DemoHash('2')})
      && ApplyAll(rows, [Update(DemoHash('2'), 2)]) == [rows[0], rows[1].(hash := DemoHash('2'))]
      && PlanRows(StopAtOwn, fp, rows, Hashes(rows)) == Planned([], Hashes(rows))
  {
    var fp, rows := Hasher(DemoDigest), DemoRows();
    var taken := Hashes(rows);
    DemoFingerprints();
    DemoTaken();
    assert RowHash(fp, rows[0], 0) == RowHash(fp, rows[1], 0);
    AsWrittenResalts(fp, rows[1], taken);
    DemoPlanSecondRow(fp, rows, taken);
    assert ApplyAll(rows, [Update(DemoHash('2'), 2)]) == ApplyUpdate(rows, Update(DemoHash('2'), 2));
  }

  lemma DemoPlanSecondRow(fp: Fingerprinter, rows: seq<Row>, taken: set<string>)
    requires |rows| == 2 && rows[1].rowid == 2
    requires Decide(AsWritten, fp, rows[0], taken) == Keep && Decide(StopAtOwn, fp, rows[0], taken) == Keep
    requires Decide(AsWritten, fp, rows[1], taken) == Rekey(2, DemoHash('2'))
    requires Decide(StopAtOwn, fp, rows[1], taken) == Keep
    ensures PlanRows(AsWritten, fp, rows, taken) == Planned([Update(DemoHash('2'), 2)], taken + {DemoHash('2')})
    ensures PlanRows(StopAtOwn, fp, rows, taken) == Planned([], taken)
  {
    assert rows[1..][1..] == [];
    assert PlanRows(AsWritten, fp, rows[1..], taken) == Prepend([Update(DemoHash('2'), 2)], Planned([], taken + {DemoHash('2')}));
    assert PlanRows(StopAtOwn, fp, rows[1..], taken) == Planned([], taken);
  }

  /** The collision set of the two demo rows holds the salt-0 and salt-1 fingerprints only. */
  lemma DemoTaken()
    ensures var taken := Hashes([DemoRow(1, '0'), DemoRow(2, '1')]);
      && DemoHash('0') in taken && DemoHash('1') in taken && DemoHash('2') !in taken
      && |taken| == 2 && DemoHash('0') != DemoHash('1')
  {
    DemoHashesDiffer();
    assert Hashes([DemoRow(1, '0'), DemoRow(2, '1')]) == {DemoHash('0'), DemoHash('1')};
  }

  lemma DemoHashesDiffer()
    ensures DemoHash('0') != DemoHash('1') && DemoHash('2') != DemoHash('1') && DemoHash('2') != DemoHash('0')
  {
    assert DemoHash('0')[0] == '0' && DemoHash('1')[0] == '1' && DemoHash('2')[0] == '2';
  }

  // ---------------------------------------------------------------------------
  // The migration as a whole
  // ---------------------------------------------------------------------------

  /** The database file as far as `main` touches it: the `entries` table, if it exists. */
  class Database {
    var entries: Option<seq<Row>>

    constructor (entries: Option<seq<Row>>)
      ensures this.entries == entries
    {
      this.entries := entries;
    }
  }

  /**
   * Lines 95-96: the staged updates run one by one. When the storage layer
   * fails the update at index `failAt`, the loop stops there.
   */
  method ApplyStaged(db: Database, rows: seq<Row>, updates: seq<Update>, failAt: Option<nat>) returns (failed: bool)
    requires db.entries == Some(rows)
    modifies db
    ensures failed <==> failAt.Some? && failAt.value < |updates|
    ensures !failed ==> db.entries == Some(ApplyAll(rows, updates))
    ensures failed ==> db.entries == Some(ApplyAll(rows, updates[..failAt.value]))
  {
    for k := 0 to |updates|
      invariant db.entries == Some(ApplyAll(rows, updates[..k]))
      invariant failAt.Some? ==> k <= failAt.value
    {
      if failAt == Some(k) {
        return true;
      }
      assert updates[..k + 1][..k] == updates[..k];
      db.entries := Some(ApplyUpdate(db.entries.value, updates[k]));
    }
    assert updates[..|updates|] == updates;
    return false;
  }

  /**
   * `main` from `BEGIN` on; the result is the exit code. `dryRun` is
   * `--dry-run`. `failAt`, when present, is the index of the staged update
   * whose `UPDATE` statement the storage layer fails; like every exception
   * after `BEGIN` it rolls the transaction back.
   */
  method Migrate(db: Database, digest: Digest, dryRun: bool, failAt: Option<nat>) returns (code: int)
    modifies db
    ensures code == 0 || code == 2
    ensures old(db.entries).None? ==> code == 2 && db.entries == old(db.entries)
    ensures old(db.entries).Some? ==>
      var rows := Backfill(old(db.entries).value);
      var plan := PlanRows(AsWritten, Hasher(digest), rows, Hashes(rows));
      if plan.Conflict? then code == 2 && db.entries == old(db.entries)
      else if dryRun then code == 0 && db.entries == old(db.entries)
      else if failAt.Some? && failAt.value < |plan.updates| then code == 2 && db.entries == old(db.entries)
      else code == 0 && db.entries == Some(ApplyAll(rows, plan.updates))
  {
    if db.entries.None? {
      // RuntimeError("Table 'entries' not found"), then ROLLBACK
      return 2;
    }
    var snapshot := db.entries;
    var rows := Backfill(db.entries.value);
    db.entries := Some(rows);
    var plan := PlanUpdates(Hasher(digest), rows);
    if plan.Conflict? {
      db.entries := snapshot;
      return 2;
    }
    if dryRun {
      db.entries := snapshot;
      return 0;
    }
    var failed := ApplyStaged(db, rows, plan.updates, failAt);
    if failed {
      db.entries := snapshot;
      return 2;
    }
    code := 0;
  }
}
