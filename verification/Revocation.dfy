/**
 * The revocation cascade: what each statement writes, and what every run of
 * them keeps. One step is one SQL statement or one transaction, so reports,
 * operator entries and cascades of different requests interleave freely.
 */
module Revocation {
  import opened Text
  import opened Delegations

  type Instant = int

  datatype Reason = ParentRevoked | Explicit

  datatype Row = Row(parent: Jti, revoked: bool, revokedAt: Option<Instant>, reason: Option<Reason>)

  datatype Tct = Tct(issuer: string, revoked: bool, revokedAt: Option<Instant>)

  datatype Entry = Entry(revokedAt: Instant, note: Option<string>, iss: Option<string>)

  datatype Db = Db(entries: map<Jti, Entry>, tcts: map<Jti, Tct>, rows: map<Jti, Row>)
  {
    function Links(): Links { map x | x in rows :: rows[x].parent }
  }

  const EMPTY := Db(map[], map[], map[])

  // ---------------------------------------------------------------- the statements

  function TctRevokedAt(db: Db, jti: Jti): Option<Instant> {
    if jti in db.entries then Some(db.entries[jti].revokedAt) else None
  }

  function Coalesce(a: Option<Instant>, b: Option<Instant>): Option<Instant> {
    if a.Some? then a else b
  }

  function ParentRevokedAt(db: Db, parent: Jti): Option<Instant> {
    Coalesce(TctRevokedAt(db, parent),
             Coalesce(if parent in db.tcts && db.tcts[parent].revoked then db.tcts[parent].revokedAt else None,
                      if parent in db.rows && db.rows[parent].revoked then db.rows[parent].revokedAt else None))
  }

  /** Insert one reported TCT, unless its jti already has a row. */
  function ReportTct(db: Db, jti: Jti, issuer: string): Db {
    var at := TctRevokedAt(db, jti);
    if jti in db.tcts then db else db.(tcts := db.tcts[jti := Tct(issuer, at.Some?, at)])
  }

  /** Insert one reported delegation, unless its jti already has a row. */
  function ReportDelegation(db: Db, jti: Jti, parent: Jti): Db {
    var at := ParentRevokedAt(db, parent);
    var row := Row(parent, at.Some?, at, if at.Some? then Some(ParentRevoked) else None);
    if jti in db.rows then db else db.(rows := db.rows[jti := row])
  }

  function Revoke(row: Row, at: Instant, reason: Reason): Row {
    if row.revoked then row else row.(revoked := true, revokedAt := Some(at), reason := Some(reason))
  }

  /** `update ... where revoked = false and jti in (<below>)` */
  function Mark(rows: map<Jti, Row>, below: set<Jti>, at: Instant): map<Jti, Row> {
    map x | x in rows :: if x in below then Revoke(rows[x], at, ParentRevoked) else rows[x]
  }

  ghost function Cascade(db: Db, jti: Jti, at: Instant): Db {
    db.(rows := Mark(db.rows, Descendants(db.Links(), jti), at))
  }

  function MarkTct(tcts: map<Jti, Tct>, jti: Jti, at: Instant): map<Jti, Tct> {
    if jti in tcts && !tcts[jti].revoked
    then tcts[jti := tcts[jti].(revoked := true, revokedAt := Some(at))]
    else tcts
  }

  function MarkExplicit(rows: map<Jti, Row>, jti: Jti, at: Instant): map<Jti, Row> {
    if jti in rows then rows[jti := Revoke(rows[jti], at, Explicit)] else rows
  }

  /** The projection of `tct.revoked`: one transaction. */
  ghost function RevokeTct(db: Db, jti: Jti, at: Instant): Db {
    Cascade(db.(tcts := MarkTct(db.tcts, jti, at)), jti, at)
  }

  /** The projection of `delegation.revoked`: one transaction. */
  ghost function RevokeDelegation(db: Db, jti: Jti, at: Instant): Db {
    Cascade(db.(rows := MarkExplicit(db.rows, jti, at)), jti, at)
  }

  /** The operator's upsert: the first entry stays, only a missing issuer is filled in. */
  function PutEntry(db: Db, jti: Jti, at: Instant, note: Option<string>, iss: string): Db {
    if jti !in db.entries then db.(entries := db.entries[jti := Entry(at, note, Some(iss))])
    else if db.entries[jti].iss.None? then db.(entries := db.entries[jti := db.entries[jti].(iss := Some(iss))])
    else db
  }

  datatype Step =
    | TctReported(jti: Jti, issuer: string)
    | DelegationReported(jti: Jti, parent: Jti)
    | EntryPut(jti: Jti, at: Instant, note: Option<string>, iss: string)
    | TctRevoked(jti: Jti, at: Instant)
    | DelegationRevoked(jti: Jti, at: Instant)

  ghost function Apply(db: Db, step: Step): Db {
    match step
    case TctReported(jti, issuer) => ReportTct(db, jti, issuer)
    case DelegationReported(jti, parent) => ReportDelegation(db, jti, parent)
    case EntryPut(jti, at, note, iss) => PutEntry(db, jti, at, note, iss)
    case TctRevoked(jti, at) => RevokeTct(db, jti, at)
    case DelegationRevoked(jti, at) => RevokeDelegation(db, jti, at)
  }

  ghost function Run(db: Db, steps: seq<Step>): Db
    decreases |steps|
  {
    if steps == [] then db else Run(Apply(db, steps[0]), steps[1..])
  }

  // ---------------------------------------------------------------- what no step undoes

  /** `revoked`, `revokedAt` and the reason agree on every row. */
  predicate Consistent(db: Db) {
    && RowsConsistent(db.rows)
    && TctsConsistent(db.tcts)
  }

  predicate TctsConsistent(tcts: map<Jti, Tct>) {
    forall x | x in tcts :: tcts[x].revoked == tcts[x].revokedAt.Some?
  }

  predicate RowsConsistent(rows: map<Jti, Row>) {
    forall x | x in rows :: rows[x].revoked == rows[x].revokedAt.Some? == rows[x].reason.Some?
  }

  /** Rows stay, parent links stay, a revocation once recorded stays as it was first recorded. */
  predicate Extends(db: Db, later: Db) {
    && RowsExtend(db.rows, later.rows)
    && TctsExtend(db.tcts, later.tcts)
    && (forall x | x in db.entries ::
          x in later.entries && later.entries[x].revokedAt == db.entries[x].revokedAt &&
          later.entries[x].note == db.entries[x].note &&
          (db.entries[x].iss.Some? ==> later.entries[x] == db.entries[x]))
  }

  predicate RowsExtend(rows: map<Jti, Row>, later: map<Jti, Row>) {
    forall x | x in rows ::
      x in later && later[x].parent == rows[x].parent && (rows[x].revoked ==> later[x] == rows[x])
  }

  predicate TctsExtend(tcts: map<Jti, Tct>, later: map<Jti, Tct>) {
    forall x | x in tcts ::
      x in later && later[x].issuer == tcts[x].issuer && (tcts[x].revoked ==> later[x] == tcts[x])
  }

  lemma MarkTctIsWriteOnce(tcts: map<Jti, Tct>, jti: Jti, at: Instant)
    requires TctsConsistent(tcts)
    ensures TctsConsistent(MarkTct(tcts, jti, at)) && TctsExtend(tcts, MarkTct(tcts, jti, at))
  {
  }

  lemma MarkIsWriteOnce(rows: map<Jti, Row>, jti: Jti, below: set<Jti>, at: Instant)
    requires RowsConsistent(rows)
    ensures RowsConsistent(Mark(rows, below, at)) && RowsExtend(rows, Mark(rows, below, at))
    ensures RowsConsistent(MarkExplicit(rows, jti, at)) && RowsExtend(rows, MarkExplicit(rows, jti, at))
  {
  }

  lemma StepIsWriteOnce(db: Db, step: Step)
    requires Consistent(db)
    ensures Consistent(Apply(db, step)) && Extends(db, Apply(db, step))
  {
    if step.TctRevoked? || step.DelegationRevoked? {
      RevocationIsWriteOnce(db, step.jti, step.at);
      hide RevokeTct, RevokeDelegation, Consistent, Extends;
    } else {
      hide Cascade, Mark, MarkTct, MarkExplicit;
    }
  }

  lemma RevocationIsWriteOnce(db: Db, jti: Jti, at: Instant)
    requires Consistent(db)
    ensures Consistent(RevokeTct(db, jti, at)) && Extends(db, RevokeTct(db, jti, at))
    ensures Consistent(RevokeDelegation(db, jti, at)) && Extends(db, RevokeDelegation(db, jti, at))
  {
    var below := Descendants(db.Links(), jti);
    RevokedRows(db, jti, at);
    MarkTctIsWriteOnce(db.tcts, jti, at);
    MarkIsWriteOnce(db.rows, jti, below, at);
    MarkIsWriteOnce(MarkExplicit(db.rows, jti, at), jti, below, at);
    RowsExtendIsTransitive(db.rows, MarkExplicit(db.rows, jti, at), RevokeDelegation(db, jti, at).rows);
    hide Mark, MarkExplicit, MarkTct, RowsConsistent, RowsExtend, TctsConsistent, Descendants;
  }

  lemma RowsExtendIsTransitive(a: map<Jti, Row>, b: map<Jti, Row>, c: map<Jti, Row>)
    requires RowsExtend(a, b) && RowsExtend(b, c)
    ensures RowsExtend(a, c)
  {
  }

  lemma ExtendsIsTransitive(a: Db, b: Db, c: Db)
    requires Extends(a, b) && Extends(b, c)
    ensures Extends(a, c)
  {
  }

  lemma {:induction false} RunIsWriteOnce(db: Db, steps: seq<Step>)
    requires Consistent(db)
    ensures Consistent(Run(db, steps)) && Extends(db, Run(db, steps))
    decreases |steps|
  {
    if steps != [] {
      StepIsWriteOnce(db, steps[0]);
      RunIsWriteOnce(Apply(db, steps[0]), steps[1..]);
      ExtendsIsTransitive(db, Apply(db, steps[0]), Run(db, steps));
    }
  }

  /** The jtis some request or event asked to revoke. */
  function Subjects(steps: seq<Step>): set<Jti> {
    set i | 0 <= i < |steps| && !steps[i].TctReported? && !steps[i].DelegationReported? :: steps[i].jti
  }

  /** Nothing is revoked without a revocation at or above it. */
  ghost predicate Justified(db: Db, subjects: set<Jti>) {
    && db.entries.Keys <= subjects
    && (forall x | x in db.tcts && db.tcts[x].revoked :: x in subjects)
    && (forall x | x in db.rows && db.rows[x].revoked ::
          x in subjects || exists a :: a in subjects && Above(db.Links(), a, x))
  }

  lemma LinksStay(db: Db, step: Step)
    requires !step.DelegationReported?
    ensures Apply(db, step).Links() == db.Links()
  {
  }

  /** What the two revoking transactions write to the delegation rows. */
  lemma RevokedRows(db: Db, jti: Jti, at: Instant)
    ensures RevokeTct(db, jti, at).rows == Mark(db.rows, Descendants(db.Links(), jti), at)
    ensures RevokeDelegation(db, jti, at).rows ==
            Mark(MarkExplicit(db.rows, jti, at), Descendants(db.Links(), jti), at)
  {
    assert db.(rows := MarkExplicit(db.rows, jti, at)).Links() == db.Links();
    assert db.(tcts := MarkTct(db.tcts, jti, at)).Links() == db.Links();
  }

  lemma LinksGrow(db: Db, jti: Jti, parent: Jti)
    requires jti !in db.rows
    ensures ReportDelegation(db, jti, parent).Links() == db.Links()[jti := parent]
  {
  }

  lemma JustifiedStep(db: Db, step: Step, subjects: set<Jti>)
    requires Consistent(db) && Justified(db, subjects)
    requires step.TctReported? || step.DelegationReported? || step.jti in subjects
    ensures Justified(Apply(db, step), subjects)
  {
    var after := Apply(db, step);
    if step.DelegationReported? && step.jti !in db.rows {
      var links, parent := db.Links(), step.parent;
      LinksGrow(db, step.jti, parent);
      forall x | x in after.rows && after.rows[x].revoked
        ensures x in subjects || exists a :: a in subjects && Above(after.Links(), a, x)
      {
        if x == step.jti {
          AboveStep(after.Links(), parent, x);
          if parent !in subjects {
            var a :| a in subjects && Above(links, a, parent);
            AboveWithRow(links, x, parent, a, parent);
            AboveStep(after.Links(), a, x);
          }
        } else if x !in subjects {
          var a :| a in subjects && Above(links, a, x);
          AboveWithRow(links, step.jti, parent, a, x);
        }
      }
    } else if step.TctRevoked? || step.DelegationRevoked? {
      LinksStay(db, step);
      RevokedRows(db, step.jti, step.at);
      forall x | x in after.rows && after.rows[x].revoked
        ensures x in subjects || exists a :: a in subjects && Above(after.Links(), a, x)
      {
        assert db.rows[x].revoked || x == step.jti || Above(after.Links(), step.jti, x);
      }
    }
  }

  /** No over-revocation, in any run, in any order, on any graph, cyclic ones included. */
  lemma {:induction false} NoOverRevocation(db: Db, steps: seq<Step>, subjects: set<Jti>)
    requires Consistent(db) && Justified(db, subjects) && Subjects(steps) <= subjects
    ensures Justified(Run(db, steps), subjects)
    decreases |steps|
  {
    if steps != [] {
      var step := steps[0];
      assert !step.TctReported? && !step.DelegationReported? ==> step.jti in Subjects(steps);
      JustifiedStep(db, step, subjects);
      RunIsWriteOnce(db, [step]);
      assert Run(db, [step]) == Apply(db, step) by { assert [step][1..] == []; }
      forall j | j in Subjects(steps[1..]) ensures j in subjects {
        var rest := steps[1..];
        var i :| 0 <= i < |rest| && !rest[i].TctReported? && !rest[i].DelegationReported? && rest[i].jti == j;
        assert steps[i + 1].jti in Subjects(steps);
      }
      NoOverRevocation(Apply(db, step), steps[1..], subjects);
    }
  }

  /** After `delegation.revoked(root)` every row of the root's tree is revoked. */
  lemma WholeTreeRevoked(db: Db, root: Jti, at: Instant)
    ensures var after := RevokeDelegation(db, root, at);
            after.Links() == db.Links() &&
            forall x | x in Tree(after.Links(), root) :: after.rows[x].revoked
  {
    assert Apply(db, DelegationRevoked(root, at)) == RevokeDelegation(db, root, at);
    hide Apply, Cascade, RevokeDelegation, Descendants;
    LinksStay(db, DelegationRevoked(root, at));
    RevokedRows(db, root, at);
    assert Descendants(db.Links(), root) <= db.rows.Keys by { DescendantsAreRows(db, root); }
  }

  lemma DescendantsAreRows(db: Db, root: Jti)
    ensures Descendants(db.Links(), root) <= db.rows.Keys
  {
  }

  // ---------------------------------------------------------------- incremental equals from scratch

  /** Where revocation starts: operator entries, revoked TCTs, explicitly revoked delegations. */
  ghost function Sources(db: Db): set<Jti> {
    db.entries.Keys
    + (set x | x in db.tcts && db.tcts[x].revoked)
    + (set x | x in db.rows && db.rows[x].reason == Some(Explicit))
  }

  /** The from-scratch meaning of `revoked`. */
  ghost predicate Tainted(db: Db, x: Jti)
    requires x in db.rows
  {
    db.rows[x].reason == Some(Explicit) || exists a :: a in Sources(db) && Above(db.Links(), a, x)
  }

  /** The table says of every delegation exactly what a search up its parent chain would say. */
  ghost predicate Exact(db: Db) {
    forall x | x in db.rows :: db.rows[x].revoked <==> Tainted(db, x)
  }

  /** Every revocation in the table has a source. */
  ghost predicate Sound(db: Db) {
    forall x | x in db.rows && db.rows[x].revoked :: Tainted(db, x)
  }

  /** No revoked row, and no source whose cascade has run, has an unrevoked child. */
  ghost predicate Downward(db: Db, pending: set<Jti>) {
    forall x | x in db.rows ::
      (|| (db.rows[x].parent in db.rows && db.rows[db.rows[x].parent].revoked)
       || (db.rows[x].parent in Sources(db) && db.rows[x].parent !in pending))
      ==> db.rows[x].revoked
  }

  lemma {:induction false} DownwardReaches(db: Db, pending: set<Jti>, a: Jti, x: Jti, n: nat)
    requires Downward(db, pending) && a in Sources(db) && a !in pending
    requires x in db.rows && n > 0 && Up(db.Links(), x, n) == Some(a)
    ensures db.rows[x].revoked
    decreases n
  {
    if n > 1 {
      DownwardReaches(db, pending, a, db.rows[x].parent, n - 1);
    }
  }

  /** With no cascade pending, soundness and downward closure are exactness, and conversely. */
  lemma ExactIff(db: Db)
    requires Consistent(db)
    ensures Exact(db) <==> Sound(db) && Downward(db, {})
  {
    if Sound(db) && Downward(db, {}) {
      forall x | x in db.rows && Tainted(db, x) ensures db.rows[x].revoked {
        if db.rows[x].reason != Some(Explicit) {
          var a :| a in Sources(db) && Above(db.Links(), a, x);
          var n: nat :| n > 0 && Up(db.Links(), x, n) == Some(a);
          DownwardReaches(db, {}, a, x, n);
        }
      }
    }
    if Exact(db) {
      forall x | x in db.rows &&
                 ((db.rows[x].parent in db.rows && db.rows[db.rows[x].parent].revoked)
                  || db.rows[x].parent in Sources(db))
        ensures db.rows[x].revoked
      {
        InheritsTaint(db, x);
      }
    }
  }

  lemma InheritsTaint(db: Db, x: Jti)
    requires x in db.rows
    requires db.rows[x].parent in Sources(db) || (db.rows[x].parent in db.rows && Tainted(db, db.rows[x].parent))
    ensures Tainted(db, x)
  {
    var parent := db.rows[x].parent;
    if parent in Sources(db) {
      AboveStep(db.Links(), parent, x);
    } else {
      var a :| a in Sources(db) && Above(db.Links(), a, parent);
      AboveStep(db.Links(), a, x);
    }
  }

  ghost predicate AllBelowRevoked(db: Db, jti: Jti) {
    forall x | x in Descendants(db.Links(), jti) :: db.rows[x].revoked
  }

  predicate ChildrenRevoked(db: Db, jti: Jti) {
    forall x | x in db.rows && db.rows[x].parent == jti :: db.rows[x].revoked
  }

  /**
   * The ordering hypothesis, as a guard a caller could test before the step:
   * a delegation is not reported under a revoked parent after an unrevoked
   * child of its own, and an event does not revoke a jti nothing is known of
   * while something unrevoked hangs below it.
   */
  ghost predicate InOrder(db: Db, step: Step) {
    match step
    case DelegationReported(jti, parent) =>
      jti in db.rows || ParentRevokedAt(db, parent).None? || ChildrenRevoked(db, jti)
    case TctRevoked(jti, _) => jti in db.entries || jti in db.tcts || AllBelowRevoked(db, jti)
    case DelegationRevoked(jti, _) => jti in db.rows || jti in Sources(db) || AllBelowRevoked(db, jti)
    case _ => true
  }

  /** Entries whose cascade has not run yet: the upsert and the cascade are two statements. */
  ghost function NextPending(db: Db, pending: set<Jti>, step: Step): set<Jti> {
    match step
    case EntryPut(jti, _, _, _) => if jti in Sources(db) then pending else pending + {jti}
    case TctRevoked(jti, _) => pending - {jti}
    case DelegationRevoked(jti, _) => pending - {jti}
    case _ => pending
  }

  lemma ReportSources(db: Db, step: Step)
    requires Consistent(db) && (step.TctReported? || step.DelegationReported?)
    ensures Sources(Apply(db, step)) == Sources(db)
  {
    hide ParentRevokedAt, RowsConsistent;
    var after := Apply(db, step);
    assert after.entries == db.entries;
    forall a ensures a in Sources(after) <==> a in Sources(db) {
      assert a in db.tcts ==> after.tcts[a] == db.tcts[a];
      assert a in db.rows ==> after.rows[a] == db.rows[a];
    }
  }

  /** The look-up at insert time finds a revocation exactly when the parent is a source or a revoked row. */
  lemma LookupMeaning(db: Db, parent: Jti)
    requires Consistent(db)
    ensures ParentRevokedAt(db, parent).Some? <==>
            parent in Sources(db) || (parent in db.rows && db.rows[parent].revoked)
  {
  }

  lemma ReportKeeps(db: Db, pending: set<Jti>, jti: Jti, parent: Jti)
    requires Consistent(db) && Sound(db) && Downward(db, pending)
    requires InOrder(db, DelegationReported(jti, parent))
    ensures Sound(ReportDelegation(db, jti, parent)) && Downward(ReportDelegation(db, jti, parent), pending)
  {
    if jti !in db.rows {
      var after := ReportDelegation(db, jti, parent);
      ReportSources(db, DelegationReported(jti, parent));
      LookupMeaning(db, parent);
      ReportIsSound(db, jti, parent);
      forall x | x in after.rows &&
                 (|| (after.rows[x].parent in after.rows && after.rows[after.rows[x].parent].revoked)
                  || (after.rows[x].parent in Sources(after) && after.rows[x].parent !in pending))
        ensures after.rows[x].revoked
      {
        if x != jti {
          assert after.rows[x] == db.rows[x];
        }
      }
    }
  }

  lemma ReportIsSound(db: Db, jti: Jti, parent: Jti)
    requires Consistent(db) && Sound(db) && jti !in db.rows
    ensures Sound(ReportDelegation(db, jti, parent))
  {
    var after := ReportDelegation(db, jti, parent);
    LinksGrow(db, jti, parent);
    ReportSources(db, DelegationReported(jti, parent));
    LookupMeaning(db, parent);
    forall x | x in after.rows && after.rows[x].revoked ensures Tainted(after, x) {
      if x != jti {
        StaysTainted(db, jti, parent, x);
      } else {
        if parent !in Sources(db) {
          StaysTainted(db, jti, parent, parent);
        }
        InheritsTaint(after, x);
      }
    }
  }

  lemma StaysTainted(db: Db, jti: Jti, parent: Jti, x: Jti)
    requires Consistent(db) && jti !in db.rows && x in db.rows && Tainted(db, x)
    ensures Tainted(ReportDelegation(db, jti, parent), x)
  {
    var after := ReportDelegation(db, jti, parent);
    LinksGrow(db, jti, parent);
    ReportSources(db, DelegationReported(jti, parent));
    if db.rows[x].reason != Some(Explicit) {
      var a :| a in Sources(db) && Above(db.Links(), a, x);
      AboveWithRow(db.Links(), jti, parent, a, x);
    }
  }

  lemma RevokeSources(db: Db, step: Step)
    requires Consistent(db) && (step.TctRevoked? || step.DelegationRevoked? || step.EntryPut?)
    ensures Sources(db) <= Sources(Apply(db, step)) <= Sources(db) + {step.jti}
    ensures step.TctRevoked? ==>
              (step.jti in Sources(Apply(db, step)) <==> step.jti in Sources(db) || step.jti in db.tcts)
    ensures step.DelegationRevoked? ==>
              (step.jti in Sources(Apply(db, step)) <==>
               step.jti in Sources(db) || (step.jti in db.rows && !db.rows[step.jti].revoked))
    ensures step.EntryPut? ==> step.jti in Sources(Apply(db, step))
  {
    hide Sources, RevokeTct, RevokeDelegation, PutEntry;
    match step
    case EntryPut(jti, at, note, iss) => EntrySources(db, jti, at, note, iss);
    case TctRevoked(jti, at) => TctSources(db, jti, at);
    case DelegationRevoked(jti, at) => DelegationSources(db, jti, at);
  }

  lemma EntrySources(db: Db, jti: Jti, at: Instant, note: Option<string>, iss: string)
    ensures Sources(PutEntry(db, jti, at, note, iss)) == Sources(db) + {jti}
  {
  }

  lemma TctSources(db: Db, jti: Jti, at: Instant)
    requires Consistent(db)
    ensures Sources(RevokeTct(db, jti, at)) == Sources(db) + if jti in db.tcts then {jti} else {}
  {
    hide Descendants;
    RevokedRows(db, jti, at);
    var after := RevokeTct(db, jti, at);
    forall a ensures a in Sources(after) <==> a in Sources(db) || (a == jti && jti in db.tcts) {
    }
  }

  lemma DelegationSources(db: Db, jti: Jti, at: Instant)
    requires Consistent(db)
    ensures Sources(RevokeDelegation(db, jti, at)) ==
            Sources(db) + if jti in db.rows && !db.rows[jti].revoked then {jti} else {}
  {
    hide Descendants;
    RevokedRows(db, jti, at);
    var after := RevokeDelegation(db, jti, at);
    var marks := jti in db.rows && !db.rows[jti].revoked;
    forall a ensures a in Sources(after) <==> a in Sources(db) || (a == jti && marks) {
    }
  }

  lemma RevokeIsSound(db: Db, step: Step)
    requires Consistent(db) && Sound(db) && InOrder(db, step)
    requires step.TctRevoked? || step.DelegationRevoked? || step.EntryPut?
    ensures Sound(Apply(db, step))
  {
    var after := Apply(db, step);
    var links := db.Links();
    LinksStay(db, step);
    RevokeSources(db, step);
    forall x | x in after.rows && after.rows[x].revoked ensures Tainted(after, x) {
      StaysRevoked(db, step, x);
      if !db.rows[x].revoked && after.rows[x].reason != Some(Explicit) {
        if step.jti !in Sources(after) {
          var a :| a in Sources(db) && Above(links, a, step.jti);
          AboveTransitive(links, a, step.jti, x);
        }
      }
    }
    hide Apply, Above;
  }

  /** A row that a revoking step newly marks as inherited lies below the step's subject. */
  lemma StaysRevoked(db: Db, step: Step, x: Jti)
    requires Consistent(db) && (step.TctRevoked? || step.DelegationRevoked? || step.EntryPut?)
    requires x in Apply(db, step).rows && Apply(db, step).rows[x].revoked
    ensures x in db.rows
    ensures db.rows[x].revoked ==> Apply(db, step).rows[x] == db.rows[x]
    ensures !db.rows[x].revoked && Apply(db, step).rows[x].reason != Some(Explicit) ==> Above(db.Links(), step.jti, x)
  {
    if !step.EntryPut? {
      RevokedRows(db, step.jti, step.at);
    }
    hide Above;
  }

  /** One row under a revoking step: below the subject it is revoked, elsewhere nothing changed. */
  lemma RowStaysDownward(db: Db, pending: set<Jti>, step: Step, x: Jti)
    requires Consistent(db) && Downward(db, pending)
    requires step.TctRevoked? || step.DelegationRevoked? || step.EntryPut?
    requires x in db.rows
    requires var after := Apply(db, step); var parent := db.rows[x].parent;
             || (parent in after.rows && after.rows[parent].revoked)
             || (parent in Sources(after) && parent !in NextPending(db, pending, step))
    ensures x in Apply(db, step).rows && Apply(db, step).rows[x].revoked
  {
    var links, parent := db.Links(), db.rows[x].parent;
    if step.EntryPut? {
      EntryPutRows(db, step);
      RevokeSources(db, step);
    } else {
      BelowRevoked(db, step);
      if parent == step.jti || Above(links, step.jti, parent) {
        AboveStep(links, step.jti, x);
      } else {
        RevokeSources(db, step);
        assert parent in Apply(db, step).rows ==> Apply(db, step).rows[parent] == db.rows[parent];
        assert db.rows[x].revoked;
        StepIsWriteOnce(db, step);
      }
    }
  }

  lemma RevokeIsDownward(db: Db, pending: set<Jti>, step: Step)
    requires Consistent(db) && Downward(db, pending)
    requires step.TctRevoked? || step.DelegationRevoked? || step.EntryPut?
    ensures Downward(Apply(db, step), NextPending(db, pending, step))
  {
    var after, outstanding := Apply(db, step), NextPending(db, pending, step);
    LinksStay(db, step);
    hide Apply, Sources, Consistent, NextPending;
    forall x | x in after.rows &&
               (|| (after.rows[x].parent in after.rows && after.rows[after.rows[x].parent].revoked)
                || (after.rows[x].parent in Sources(after) && after.rows[x].parent !in outstanding))
      ensures after.rows[x].revoked
    {
      assert x in after.Links() && x in db.Links() && after.Links()[x] == db.Links()[x];
      RowStaysDownward(db, pending, step, x);
    }
  }

  lemma EntryPutRows(db: Db, step: Step)
    requires step.EntryPut?
    ensures Apply(db, step).rows == db.rows
  {
  }

  lemma BelowRevoked(db: Db, step: Step)
    requires step.TctRevoked? || step.DelegationRevoked?
    ensures Apply(db, step).rows.Keys == db.rows.Keys
    ensures forall x | x in db.rows && Above(db.Links(), step.jti, x) :: Apply(db, step).rows[x].revoked
    ensures forall x | x in db.rows && x != step.jti && !Above(db.Links(), step.jti, x) ::
              Apply(db, step).rows[x] == db.rows[x]
  {
    RevokedRows(db, step.jti, step.at);
  }

  lemma StepKeeps(db: Db, pending: set<Jti>, step: Step)
    requires Consistent(db) && Sound(db) && Downward(db, pending) && InOrder(db, step)
    ensures Sound(Apply(db, step)) && Downward(Apply(db, step), NextPending(db, pending, step))
  {
    match step
    case TctReported(_, _) =>
      ReportSources(db, step);
      LinksStay(db, step);
    case DelegationReported(jti, parent) => ReportKeeps(db, pending, jti, parent);
    case _ =>
      RevokeIsSound(db, step);
      RevokeIsDownward(db, pending, step);
  }

  ghost predicate InOrderRun(db: Db, steps: seq<Step>)
    decreases |steps|
  {
    steps == [] || (InOrder(db, steps[0]) && InOrderRun(Apply(db, steps[0]), steps[1..]))
  }

  ghost function RunPending(db: Db, pending: set<Jti>, steps: seq<Step>): set<Jti>
    decreases |steps|
  {
    if steps == [] then pending
    else RunPending(Apply(db, steps[0]), NextPending(db, pending, steps[0]), steps[1..])
  }

  lemma {:induction false} RunKeeps(db: Db, pending: set<Jti>, steps: seq<Step>)
    requires Consistent(db) && Sound(db) && Downward(db, pending) && InOrderRun(db, steps)
    ensures Consistent(Run(db, steps)) && Sound(Run(db, steps))
    ensures Downward(Run(db, steps), RunPending(db, pending, steps))
    decreases |steps|
  {
    if steps != [] {
      StepIsWriteOnce(db, steps[0]);
      StepKeeps(db, pending, steps[0]);
      RunKeeps(Apply(db, steps[0]), NextPending(db, pending, steps[0]), steps[1..]);
    }
  }

  /**
   * Incremental equals from scratch: after any in-order run, interleaved in
   * any way, with no cascade outstanding, the table is exact.
   */
  lemma IncrementalEqualsFromScratch(steps: seq<Step>)
    requires InOrderRun(EMPTY, steps) && RunPending(EMPTY, {}, steps) == {}
    ensures Exact(Run(EMPTY, steps))
  {
    RunKeeps(EMPTY, {}, steps);
    ExactIff(Run(EMPTY, steps));
  }

  /** Which single steps keep an exact table exact: an upsert alone leaves its cascade outstanding. */
  ghost predicate KeepsExact(db: Db, step: Step) {
    if step.EntryPut? then AllBelowRevoked(db, step.jti) else InOrder(db, step)
  }

  /** The guard is exact: a step keeps an exact table exact if and only if it is met. */
  lemma ExactStepIff(db: Db, step: Step)
    requires Consistent(db) && Exact(db)
    ensures Exact(Apply(db, step)) <==> KeepsExact(db, step)
  {
    ExactIff(db);
    StepIsWriteOnce(db, step);
    ExactIff(Apply(db, step));
    if KeepsExact(db, step) {
      StepKeeps(db, {}, step);
      if step.EntryPut? {
        LinksStay(db, step);
        RevokeSources(db, step);
        forall x | x in db.rows && db.rows[x].parent == step.jti ensures db.rows[x].revoked {
          AboveStep(db.Links(), step.jti, x);
        }
      }
    } else if step.DelegationReported? {
      UnrevokedChildBreaks(db, step.jti, step.parent);
    } else {
      UnsourcedRevocationBreaks(db, step);
    }
  }

  /** The trap: a parent inserted as already revoked is not cascaded to children reported before it. */
  lemma UnrevokedChildBreaks(db: Db, jti: Jti, parent: Jti)
    requires Consistent(db) && Exact(db) && !InOrder(db, DelegationReported(jti, parent))
    ensures !Exact(ReportDelegation(db, jti, parent))
  {
    var after := ReportDelegation(db, jti, parent);
    ExactIff(db);
    ReportIsSound(db, jti, parent);
    assert Tainted(after, jti);
    var x :| x in db.rows && db.rows[x].parent == jti && !db.rows[x].revoked;
    assert after.rows[x] == db.rows[x];
    InheritsTaint(after, x);
  }

  lemma UnsourcedRevocationBreaks(db: Db, step: Step)
    requires Consistent(db) && Exact(db) && !KeepsExact(db, step) && !step.DelegationReported?
    ensures !Exact(Apply(db, step))
  {
    var after := Apply(db, step);
    LinksStay(db, step);
    RevokeSources(db, step);
    var x :| x in Descendants(db.Links(), step.jti) && !db.rows[x].revoked;
    assert !Tainted(db, x);
    if step.EntryPut? {
      assert Tainted(after, x);
    } else {
      RevokedRows(db, step.jti, step.at);
      assert Sources(after) == Sources(db);
      assert after.rows[x].revoked && !Tainted(after, x);
    }
  }

  // ---------------------------------------------------------------- operator runs

  /** Agent reports and operator requests, the entry and its cascade taken together. */
  datatype Report =
    | OfTct(jti: Jti, issuer: string)
    | OfDelegation(jti: Jti, parent: Jti)
    | ByOperator(jti: Jti, at: Instant, note: Option<string>, iss: string)

  ghost function Receive(db: Db, r: Report): Db {
    match r
    case OfTct(jti, issuer) => ReportTct(db, jti, issuer)
    case OfDelegation(jti, parent) => ReportDelegation(db, jti, parent)
    case ByOperator(jti, at, note, iss) => RevokeTct(PutEntry(db, jti, at, note, iss), jti, at)
  }

  ghost function ReceiveAll(db: Db, rs: seq<Report>): Db
    decreases |rs|
  {
    if rs == [] then db else ReceiveAll(Receive(db, rs[0]), rs[1..])
  }

  /** No delegation is first reported after one of its own children. */
  ghost predicate ParentsFirst(db: Db, rs: seq<Report>)
    decreases |rs|
  {
    rs != [] ==>
      && (rs[0].OfDelegation? ==>
            rs[0].jti in db.rows || forall x | x in db.rows :: db.rows[x].parent != rs[0].jti)
      && ParentsFirst(Receive(db, rs[0]), rs[1..])
  }

  /** In operator runs every source is an entry. */
  predicate EntriesOnly(db: Db) {
    && (forall x | x in db.tcts && db.tcts[x].revoked :: x in db.entries)
    && (forall x | x in db.rows :: db.rows[x].reason != Some(Explicit))
  }

  /** The operator route, entry then cascade, keeps an exact table exact whatever came before. */
  lemma OperatorKeepsExact(db: Db, jti: Jti, at: Instant, note: Option<string>, iss: string)
    requires Consistent(db) && Exact(db)
    ensures Consistent(RevokeTct(PutEntry(db, jti, at, note, iss), jti, at))
    ensures Exact(RevokeTct(PutEntry(db, jti, at, note, iss), jti, at))
  {
    var put := EntryPut(jti, at, note, iss);
    var between := PutEntry(db, jti, at, note, iss);
    assert Apply(db, put) == between && jti in between.entries;
    hide PutEntry, RevokeTct, Consistent, Sources, Sound, Downward, Exact, AllBelowRevoked;
    ExactIff(db);
    StepIsWriteOnce(db, put);
    StepKeeps(db, {}, put);
    StepKeeps(between, NextPending(db, {}, put), TctRevoked(jti, at));
    StepIsWriteOnce(between, TctRevoked(jti, at));
    assert NextPending(between, NextPending(db, {}, put), TctRevoked(jti, at)) == {};
    ExactIff(Apply(between, TctRevoked(jti, at)));
  }

  lemma ReceiveKeepsEntriesOnly(db: Db, r: Report)
    requires Consistent(db) && EntriesOnly(db)
    ensures EntriesOnly(Receive(db, r))
  {
    if r.ByOperator? {
      RevokedRows(PutEntry(db, r.jti, r.at, r.note, r.iss), r.jti, r.at);
    }
  }

  lemma ReportKeepsExact(db: Db, step: Step)
    requires Consistent(db) && Exact(db) && InOrder(db, step) && !step.EntryPut?
    ensures Consistent(Apply(db, step)) && Exact(Apply(db, step))
  {
    hide Consistent, Exact, InOrder;
    StepIsWriteOnce(db, step);
    ExactStepIff(db, step);
  }

  lemma ReceiveKeeps(db: Db, r: Report)
    requires Consistent(db) && Exact(db) && EntriesOnly(db) && ParentsFirst(db, [r])
    ensures Consistent(Receive(db, r)) && Exact(Receive(db, r)) && EntriesOnly(Receive(db, r))
  {
    ReceiveKeepsEntriesOnly(db, r);
    match r
    case ByOperator(jti, at, note, iss) =>
      OperatorKeepsExact(db, jti, at, note, iss);
    case OfTct(jti, issuer) =>
      ReportKeepsExact(db, TctReported(jti, issuer));
    case OfDelegation(jti, parent) =>
      ReportKeepsExact(db, DelegationReported(jti, parent));
  }

  lemma {:induction false} ReceiveAllKeeps(db: Db, rs: seq<Report>)
    requires Consistent(db) && Exact(db) && EntriesOnly(db) && ParentsFirst(db, rs)
    ensures Consistent(ReceiveAll(db, rs)) && Exact(ReceiveAll(db, rs)) && EntriesOnly(ReceiveAll(db, rs))
    decreases |rs|
  {
    if rs != [] {
      assert [rs[0]][1..] == [];
      ReceiveKeeps(db, rs[0]);
      ReceiveAllKeeps(Receive(db, rs[0]), rs[1..]);
    }
  }

  /** What `revoked` means after an operator run: some jti on the parent chain has an entry. */
  lemma RevokedIffEntryAbove(rs: seq<Report>)
    requires ParentsFirst(EMPTY, rs)
    ensures var db := ReceiveAll(EMPTY, rs);
            forall x | x in db.rows ::
              db.rows[x].revoked <==> exists a :: a in db.entries && Above(db.Links(), a, x)
  {
    ReceiveAllKeeps(EMPTY, rs);
    var db := ReceiveAll(EMPTY, rs);
    assert Sources(db) == db.entries.Keys;
  }

  function EntryJtis(rs: seq<Report>): set<Jti> { set r | r in rs && r.ByOperator? :: r.jti }

  /** The parent each delegation was first reported with; later reports of its jti are ignored. */
  function FirstParents(rs: seq<Report>): Links {
    if rs == [] then map[] else FirstParents(rs[1..]) + LinkOf(rs[0])
  }

  function LinkOf(r: Report): Links { if r.OfDelegation? then map[r.jti := r.parent] else map[] }

  lemma ReceivedOne(db: Db, r: Report)
    ensures Receive(db, r).entries.Keys == db.entries.Keys + EntryJtis([r])
    ensures Receive(db, r).Links() == LinkOf(r) + db.Links()
  {
    hide Cascade, Mark, ParentRevokedAt, TctRevokedAt, RevokeTct;
    assert forall q :: q in [r] <==> q == r;
    match r
    case OfTct(jti, issuer) =>
    case OfDelegation(jti, parent) =>
      if jti !in db.rows {
        LinksGrow(db, jti, parent);
      }
    case ByOperator(jti, at, note, iss) =>
      RevokeTctKeeps(PutEntry(db, jti, at, note, iss), jti, at);
  }

  lemma RevokeTctKeeps(db: Db, jti: Jti, at: Instant)
    ensures RevokeTct(db, jti, at).entries == db.entries && RevokeTct(db, jti, at).Links() == db.Links()
  {
    LinksStay(db, TctRevoked(jti, at));
  }

  lemma EntryJtisCons(rs: seq<Report>)
    requires rs != []
    ensures EntryJtis(rs) == EntryJtis([rs[0]]) + EntryJtis(rs[1..])
  {
    assert forall q :: q in rs <==> q == rs[0] || q in rs[1..];
    assert forall q :: q in [rs[0]] <==> q == rs[0];
  }

  lemma ReceivedNone(db: Db)
    ensures ReceiveAll(db, []) == db && FirstParents([]) == map[] && EntryJtis([]) == {}
  {
  }

  lemma ReceivedCons(db: Db, rs: seq<Report>)
    requires rs != []
    ensures ReceiveAll(db, rs) == ReceiveAll(Receive(db, rs[0]), rs[1..])
    ensures FirstParents(rs) == FirstParents(rs[1..]) + LinkOf(rs[0])
  {
  }

  lemma LinksAssociate(a: Links, b: Links, c: Links)
    ensures (a + b) + c == a + (b + c)
  {
  }

  /** The entries and links a run leaves are those it was told of, first come first kept. */
  lemma {:induction false} ReceivedContents(db: Db, rs: seq<Report>)
    ensures ReceiveAll(db, rs).entries.Keys == db.entries.Keys + EntryJtis(rs)
    ensures ReceiveAll(db, rs).Links() == FirstParents(rs) + db.Links()
    decreases |rs|
  {
    hide *;
    ReceivedNone(db);
    if rs != [] {
      ReceivedOne(db, rs[0]);
      EntryJtisCons(rs);
      ReceivedCons(db, rs);
      ReceivedContents(Receive(db, rs[0]), rs[1..]);
      LinksAssociate(FirstParents(rs[1..]), LinkOf(rs[0]), db.Links());
    }
  }

  ghost function RevokedSet(db: Db): set<Jti> { set x | x in db.rows && db.rows[x].revoked }

  /**
   * Which delegations end up revoked is settled by the jtis with entries and
   * by the parent each delegation was first reported with: any two
   * parents-first runs that agree on these revoke the same delegations.
   */
  lemma OrderDoesNotMatter(rs: seq<Report>, qs: seq<Report>)
    requires EntryJtis(rs) == EntryJtis(qs) && FirstParents(rs) == FirstParents(qs)
    requires ParentsFirst(EMPTY, rs) && ParentsFirst(EMPTY, qs)
    ensures RevokedSet(ReceiveAll(EMPTY, rs)) == RevokedSet(ReceiveAll(EMPTY, qs))
  {
    hide ReceiveAll, ParentsFirst, Above;
    ReceivedContents(EMPTY, rs);
    ReceivedContents(EMPTY, qs);
    var a, b := ReceiveAll(EMPTY, rs), ReceiveAll(EMPTY, qs);
    assert EMPTY.Links() == map[] && FirstParents(rs) + map[] == FirstParents(qs) + map[];
    assert a.rows.Keys == a.Links().Keys && b.rows.Keys == b.Links().Keys;
    RevokedIffEntryAbove(rs);
    RevokedIffEntryAbove(qs);
  }

  /** One parent per jti is what an order can change: the same reports, a jti with two parents, two outcomes. */
  lemma FirstParentDecides(child: Jti, revoked: Jti, other: Jti, at: Instant, iss: string)
    requires child != revoked && child != other && revoked != other
    ensures var entry := ByOperator(revoked, at, None, iss);
            var rs := [entry, OfDelegation(child, revoked), OfDelegation(child, other)];
            var qs := [entry, OfDelegation(child, other), OfDelegation(child, revoked)];
            && multiset(rs) == multiset(qs)
            && child in RevokedSet(ReceiveAll(EMPTY, rs))
            && child !in RevokedSet(ReceiveAll(EMPTY, qs))
  {
    var entry := ByOperator(revoked, at, None, iss);
    var entered := RevokeTct(PutEntry(EMPTY, revoked, at, None, iss), revoked, at);
    assert entered == Db(map[revoked := Entry(at, None, Some(iss))], map[], map[]);
    assert Receive(EMPTY, entry) == entered;
    ThreeReports(EMPTY, entry, OfDelegation(child, revoked), OfDelegation(child, other));
    ThreeReports(EMPTY, entry, OfDelegation(child, other), OfDelegation(child, revoked));
    hide ReceiveAll, RevokeTct, PutEntry, ReportDelegation;
    FirstReportStays(entered, child, revoked, other);
    FirstReportStays(entered, child, other, revoked);
  }

  /** A delegation reported to a table with entries only, and then again with another parent. */
  lemma FirstReportStays(db: Db, child: Jti, parent: Jti, other: Jti)
    requires db.tcts == map[] && db.rows == map[]
    ensures var after := ReportDelegation(ReportDelegation(db, child, parent), child, other);
            child in RevokedSet(after) <==> parent in db.entries
  {
  }

  /** The order hypothesis is needed: reported child first, the same three reports leave the child active. */
  lemma ChildFirstIsMissed(root: Jti, parent: Jti, child: Jti, at: Instant, iss: string)
    requires root != parent && parent != child && child != root
    ensures var late := [ByOperator(root, at, None, iss), OfDelegation(child, parent), OfDelegation(parent, root)];
            var prompt := [ByOperator(root, at, None, iss), OfDelegation(parent, root), OfDelegation(child, parent)];
            && child !in RevokedSet(ReceiveAll(EMPTY, late))
            && child in RevokedSet(ReceiveAll(EMPTY, prompt))
  {
    var entered := RevokeTct(PutEntry(EMPTY, root, at, None, iss), root, at);
    assert entered == Db(map[root := Entry(at, None, Some(iss))], map[], map[]);
    var late1 := ReportDelegation(entered, child, parent);
    var late2 := ReportDelegation(late1, parent, root);
    var prompt1 := ReportDelegation(entered, parent, root);
    var prompt2 := ReportDelegation(prompt1, child, parent);
    ThreeReports(EMPTY, ByOperator(root, at, None, iss), OfDelegation(child, parent), OfDelegation(parent, root));
    ThreeReports(EMPTY, ByOperator(root, at, None, iss), OfDelegation(parent, root), OfDelegation(child, parent));
  }

  /**
   * Without an operator there is no tombstone: revoking a parent that was never
   * reported marks the children there are, which no source then accounts for,
   * and a child reported after it is active.
   */
  lemma NoTombstoneIsKept(child: Jti, parent: Jti, at: Instant)
    requires child != parent
    ensures var reported := ReportDelegation(EMPTY, child, parent);
            var revoked := RevokeTct(EMPTY, parent, at);
            && Consistent(reported) && Exact(reported) && !KeepsExact(reported, TctRevoked(parent, at))
            && RevokedSet(RevokeTct(reported, parent, at)) == {child} && !Exact(RevokeTct(reported, parent, at))
            && Exact(revoked) && RevokedSet(ReportDelegation(revoked, child, parent)) == {}
  {
    var reported := ReportDelegation(EMPTY, child, parent);
    assert reported == Db(map[], map[], map[child := Row(parent, false, None, None)]);
    assert reported.Links() == map[child := parent];
    AboveStep(reported.Links(), parent, child);
    RevokedRows(reported, parent, at);
    var marked := RevokeTct(reported, parent, at);
    assert marked.rows == map[child := Row(parent, true, Some(at), Some(ParentRevoked))];
    assert RevokeTct(EMPTY, parent, at) == EMPTY;
    ExactStepIff(reported, TctRevoked(parent, at));
    assert Sources(marked) == {};
  }

  lemma ThreeReports(db: Db, a: Report, b: Report, c: Report)
    ensures ReceiveAll(db, [a, b, c]) == Receive(Receive(Receive(db, a), b), c)
  {
    assert [a, b, c][1..] == [b, c] && [b, c][1..] == [c] && [c][1..] == [];
    var db1 := Receive(db, a);
    assert ReceiveAll(db1, [b, c]) == ReceiveAll(Receive(db1, b), [c]);
  }
}
