/** When and why: the date and the reason a revocation records, for one step and over every run. */
module Dates {
  import opened Text
  import opened Delegations
  import opened Revocation

  // ---------------------------------------------------------------- one step

  /** Of the TCTs only the active one with the jti changes: it is revoked, dated `at`. */
  predicate TctWritten(before: map<Jti, Tct>, after: map<Jti, Tct>, jti: Jti, at: Instant) {
    && after.Keys == before.Keys
    && forall x | x in before ::
         after[x] == if x == jti && !before[x].revoked then Tct(before[x].issuer, true, Some(at)) else before[x]
  }

  /** Of the delegations only the active ones below the jti change: they are revoked as inherited, dated `at`. */
  ghost predicate BelowWritten(before: map<Jti, Row>, after: map<Jti, Row>, links: Links, jti: Jti, at: Instant) {
    && after.Keys == before.Keys
    && forall x | x in before ::
         after[x] == if !before[x].revoked && Above(links, jti, x)
                     then Row(before[x].parent, true, Some(at), Some(ParentRevoked)) else before[x]
  }

  /** The active row of the jti is revoked explicitly, the active ones below it as inherited, all dated `at`. */
  ghost predicate TreeWritten(before: map<Jti, Row>, after: map<Jti, Row>, links: Links, jti: Jti, at: Instant) {
    && after.Keys == before.Keys
    && forall x | x in before ::
         after[x] == if before[x].revoked then before[x]
                     else if x == jti then Row(before[x].parent, true, Some(at), Some(Explicit))
                     else if Above(links, jti, x) then Row(before[x].parent, true, Some(at), Some(ParentRevoked))
                     else before[x]
  }

  /** A first entry holds what it is given; a later one keeps it, and fills in an issuer only if none is there. */
  predicate EntryWritten(
    before: map<Jti, Entry>, after: map<Jti, Entry>, jti: Jti, at: Instant, note: Option<string>, iss: string)
  {
    && after.Keys == before.Keys + {jti}
    && (forall x | x in before && x != jti :: after[x] == before[x])
    && after[jti] == if jti !in before then Entry(at, note, Some(iss))
                     else Entry(before[jti].revokedAt, before[jti].note,
                                Some(if before[jti].iss.Some? then before[jti].iss.value else iss))
  }

  lemma MarkedBelow(rows: map<Jti, Row>, links: Links, jti: Jti, at: Instant)
    requires links.Keys == rows.Keys
    ensures BelowWritten(rows, Mark(rows, Descendants(links, jti), at), links, jti, at)
  {
    hide Above;
  }

  lemma MarkedItself(rows: map<Jti, Row>, jti: Jti, at: Instant)
    ensures var after := MarkExplicit(rows, jti, at);
            && after.Keys == rows.Keys && (forall x | x in rows && x != jti :: after[x] == rows[x])
            && (jti in rows ==>
                  after[jti] == if rows[jti].revoked then rows[jti]
                                else Row(rows[jti].parent, true, Some(at), Some(Explicit)))
  {
  }

  /** `tct.revoked`: the TCT and every active delegation below it are dated by the event; nothing else changes. */
  lemma TctRevokedWrites(db: Db, jti: Jti, at: Instant)
    ensures var after := RevokeTct(db, jti, at);
            && after.entries == db.entries && TctWritten(db.tcts, after.tcts, jti, at)
            && BelowWritten(db.rows, after.rows, db.Links(), jti, at)
  {
    RevokedRows(db, jti, at);
    MarkedBelow(db.rows, db.Links(), jti, at);
    hide Mark, Descendants, BelowWritten;
  }

  /** `delegation.revoked`: the row is explicit, the active rows below it inherited, all dated by the event. */
  lemma DelegationRevokedWrites(db: Db, jti: Jti, at: Instant)
    ensures var after := RevokeDelegation(db, jti, at);
            && after.entries == db.entries && after.tcts == db.tcts
            && TreeWritten(db.rows, after.rows, db.Links(), jti, at)
  {
    RevokedRows(db, jti, at);
    MarkedItself(db.rows, jti, at);
    MarkedBelow(MarkExplicit(db.rows, jti, at), db.Links(), jti, at);
    hide Mark, MarkExplicit, Descendants, Above;
  }

  lemma CascadeWrites(db: Db, jti: Jti, at: Instant)
    ensures BelowWritten(db.rows, Cascade(db, jti, at).rows, db.Links(), jti, at)
  {
    hide Above;
  }

  /** The operator's entry: the first one's date, note and issuer stay; only a missing issuer is filled in. */
  lemma EntryPutWrites(db: Db, jti: Jti, at: Instant, note: Option<string>, iss: string)
    ensures var after := PutEntry(db, jti, at, note, iss);
            && after.tcts == db.tcts && after.rows == db.rows
            && EntryWritten(db.entries, after.entries, jti, at, note, iss)
  {
  }

  /** The date a delegation reported late takes over from its parent: the entry's, else the TCT's, else the row's. */
  ghost predicate ParentDate(db: Db, parent: Jti, date: Option<Instant>) {
    if parent in db.entries then date == Some(db.entries[parent].revokedAt)
    else if parent in db.tcts && db.tcts[parent].revoked then date == db.tcts[parent].revokedAt
    else if parent in db.rows && db.rows[parent].revoked then date == db.rows[parent].revokedAt
    else date == None
  }

  /** A late report of a delegation: revoked at once, as inherited, exactly when its parent is known as revoked. */
  lemma DelegationReportWrites(db: Db, jti: Jti, parent: Jti)
    requires Consistent(db) && jti !in db.rows
    ensures var after := ReportDelegation(db, jti, parent);
            && after.entries == db.entries && after.tcts == db.tcts && after.rows.Keys == db.rows.Keys + {jti}
            && (forall x | x in db.rows :: after.rows[x] == db.rows[x])
            && after.rows[jti].parent == parent && ParentDate(db, parent, after.rows[jti].revokedAt)
            && after.rows[jti].revoked == after.rows[jti].revokedAt.Some?
            && after.rows[jti].reason == if after.rows[jti].revoked then Some(ParentRevoked) else None
  {
  }

  /** A late report of a TCT takes its entry's date. */
  lemma TctReportWrites(db: Db, jti: Jti, issuer: string)
    requires jti !in db.tcts
    ensures var after := ReportTct(db, jti, issuer);
            && after.entries == db.entries && after.rows == db.rows && after.tcts.Keys == db.tcts.Keys + {jti}
            && (forall x | x in db.tcts :: after.tcts[x] == db.tcts[x])
            && after.tcts[jti] == if jti in db.entries then Tct(issuer, true, Some(db.entries[jti].revokedAt))
                                  else Tct(issuer, false, None)
  {
  }

  // ---------------------------------------------------------------- every run

  /** Some revoking step of the run names `jti` and carries the date. */
  ghost predicate Carries(past: set<Step>, jti: Jti, date: Instant) {
    exists s :: s in past && !s.TctReported? && !s.DelegationReported? && s.jti == jti && s.at == date
  }

  /** ... and names the row or something above it. */
  ghost predicate CarriesAbove(past: set<Step>, links: Links, x: Jti, date: Instant) {
    exists a :: Carries(past, a, date) && (a == x || Above(links, a, x))
  }

  ghost predicate Dated(db: Db, past: set<Step>) {
    && (forall x | x in db.entries :: Carries(past, x, db.entries[x].revokedAt))
    && (forall x | x in db.tcts && db.tcts[x].revokedAt.Some? :: Carries(past, x, db.tcts[x].revokedAt.value))
    && (forall x | x in db.rows && db.rows[x].revokedAt.Some? ::
          CarriesAbove(past, db.Links(), x, db.rows[x].revokedAt.value))
  }

  lemma CarriesOn(past: set<Step>, step: Step, jti: Jti, date: Instant)
    requires Carries(past, jti, date)
    ensures Carries(past + {step}, jti, date)
  {
    var s :| s in past && !s.TctReported? && !s.DelegationReported? && s.jti == jti && s.at == date;
    assert s in past + {step};
  }

  lemma CarriesAboveOn(past: set<Step>, step: Step, links: Links, x: Jti, date: Instant)
    requires CarriesAbove(past, links, x, date)
    ensures CarriesAbove(past + {step}, links, x, date)
  {
    var a :| Carries(past, a, date) && (a == x || Above(links, a, x));
    CarriesOn(past, step, a, date);
  }

  lemma CarriesNow(past: set<Step>, step: Step)
    requires !step.TctReported? && !step.DelegationReported?
    ensures Carries(past + {step}, step.jti, step.at)
  {
    assert step in past + {step};
  }

  /** The dates of what a step leaves alone stay accounted for. */
  lemma DatedOn(db: Db, past: set<Step>, step: Step)
    requires Dated(db, past)
    ensures Dated(db, past + {step})
  {
    forall x | x in db.entries ensures Carries(past + {step}, x, db.entries[x].revokedAt) {
      CarriesOn(past, step, x, db.entries[x].revokedAt);
    }
    forall x | x in db.tcts && db.tcts[x].revokedAt.Some?
      ensures Carries(past + {step}, x, db.tcts[x].revokedAt.value)
    {
      CarriesOn(past, step, x, db.tcts[x].revokedAt.value);
    }
    forall x | x in db.rows && db.rows[x].revokedAt.Some?
      ensures CarriesAbove(past + {step}, db.Links(), x, db.rows[x].revokedAt.value)
    {
      CarriesAboveOn(past, step, db.Links(), x, db.rows[x].revokedAt.value);
    }
  }

  lemma RevokingIsDated(db: Db, past: set<Step>, step: Step)
    requires Consistent(db) && Dated(db, past + {step}) && (step.TctRevoked? || step.DelegationRevoked?)
    ensures Dated(Apply(db, step), past + {step})
  {
    var after, all := Apply(db, step), past + {step};
    CarriesNow(past, step);
    LinksStay(db, step);
    if step.TctRevoked? {
      TctRevokedWrites(db, step.jti, step.at);
    } else {
      DelegationRevokedWrites(db, step.jti, step.at);
    }
    hide Apply, Carries, Above;
    forall x | x in after.rows && after.rows[x].revokedAt.Some?
      ensures CarriesAbove(all, after.Links(), x, after.rows[x].revokedAt.value)
    {
      if after.rows[x] != db.rows[x] {
        assert Carries(all, step.jti, step.at) && (step.jti == x || Above(after.Links(), step.jti, x));
      }
    }
  }

  lemma EntryIsDated(db: Db, past: set<Step>, step: Step)
    requires Dated(db, past + {step}) && step.EntryPut?
    ensures Dated(Apply(db, step), past + {step})
  {
    CarriesNow(past, step);
    EntryPutWrites(db, step.jti, step.at, step.note, step.iss);
    hide Carries, CarriesAbove;
    assert Apply(db, step).Links() == db.Links();
  }

  lemma ReportIsDated(db: Db, past: set<Step>, jti: Jti, parent: Jti)
    requires Consistent(db) && Dated(db, past) && jti !in db.rows
    ensures Dated(ReportDelegation(db, jti, parent), past)
  {
    var after := ReportDelegation(db, jti, parent);
    DelegationReportWrites(db, jti, parent);
    LinksGrow(db, jti, parent);
    hide ReportDelegation, Carries;
    forall x | x in after.rows && after.rows[x].revokedAt.Some?
      ensures CarriesAbove(past, after.Links(), x, after.rows[x].revokedAt.value)
    {
      var date := after.rows[x].revokedAt.value;
      var a;
      if x != jti {
        a :| Carries(past, a, date) && (a == x || Above(db.Links(), a, x));
        AboveWithRow(db.Links(), jti, parent, a, x);
      } else if parent in db.entries || (parent in db.tcts && db.tcts[parent].revoked) {
        a := parent;
        AboveStep(after.Links(), a, x);
      } else {
        a :| Carries(past, a, date) && (a == parent || Above(db.Links(), a, parent));
        AboveWithRow(db.Links(), jti, parent, a, parent);
        AboveStep(after.Links(), a, x);
      }
      assert Carries(past, a, date) && (a == x || Above(after.Links(), a, x));
    }
  }

  lemma StepIsDated(db: Db, past: set<Step>, step: Step)
    requires Consistent(db) && Dated(db, past)
    ensures Dated(Apply(db, step), past + {step})
  {
    DatedOn(db, past, step);
    match step
    case TctReported(jti, issuer) =>
      if jti !in db.tcts {
        TctReportWrites(db, jti, issuer);
        assert Apply(db, step).Links() == db.Links();
      }
      hide Carries, CarriesAbove;
    case DelegationReported(jti, parent) =>
      if jti !in db.rows {
        ReportIsDated(db, past + {step}, jti, parent);
      }
    case EntryPut(_, _, _, _) => EntryIsDated(db, past, step);
    case _ => RevokingIsDated(db, past, step);
  }

  lemma {:induction false} RunIsDated(db: Db, past: set<Step>, steps: seq<Step>)
    requires Consistent(db) && Dated(db, past)
    ensures Dated(Run(db, steps), past + set s | s in steps)
    decreases |steps|
  {
    hide Apply, Dated, Consistent, Extends;
    if steps == [] {
      assert past + (set s | s in steps) == past;
    } else {
      StepIsWriteOnce(db, steps[0]);
      StepIsDated(db, past, steps[0]);
      RunIsDated(Apply(db, steps[0]), past + {steps[0]}, steps[1..]);
      assert past + {steps[0]} + (set s | s in steps[1..]) == past + set s | s in steps;
    }
  }

  /**
   * Where dates come from, in every run: an entry's and a TCT's from a revoking
   * step with its jti, a delegation's from one whose jti is the row or above it.
   */
  lemma DatesComeFromSteps(steps: seq<Step>)
    ensures var db, past := Run(EMPTY, steps), (set s | s in steps);
            && (forall x | x in db.entries :: Carries(past, x, db.entries[x].revokedAt))
            && (forall x | x in db.tcts && db.tcts[x].revoked ::
                  db.tcts[x].revokedAt.Some? && Carries(past, x, db.tcts[x].revokedAt.value))
            && (forall x | x in db.rows && db.rows[x].revoked ::
                  db.rows[x].revokedAt.Some? && CarriesAbove(past, db.Links(), x, db.rows[x].revokedAt.value))
  {
    RunIsWriteOnce(EMPTY, steps);
    RunIsDated(EMPTY, {}, steps);
    assert {} + (set s | s in steps) == set s | s in steps;
    hide Run, Carries, CarriesAbove;
  }
}
