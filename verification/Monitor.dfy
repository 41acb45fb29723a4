/** The monitor and the operator route as methods over the three tables. */
module Monitor {
  import opened Text
  import opened Delegations
  import opened Revocation
  import opened Dates

  datatype Issuer = Resolved(iss: string) | IssMismatch | IssRequired

  datatype Reply = Created(iss: string) | JtiInvalid | Refused(problem: Issuer)

  /** The issuers that are named at all. */
  function Named(projected: Option<string>, stored: Option<string>, given: Option<string>): set<string> {
    set o | o in {projected, stored, given} && o.Some? :: o.value
  }

  /**
   * Whom an entry is relayed to. It resolves exactly when somebody names an
   * issuer and everybody who does names the same one.
   */
  function ResolveIssuer(projected: Option<string>, stored: Option<string>, given: Option<string>): (r: Issuer)
    ensures r.IssRequired? <==> Named(projected, stored, given) == {}
    ensures forall v :: r == Resolved(v) <==> Named(projected, stored, given) == {v}
  {
    var named := Named(projected, stored, given);
    assert projected.Some? ==> projected.value in named by { assert projected in {projected, stored, given}; }
    assert stored.Some? ==> stored.value in named by { assert stored in {projected, stored, given}; }
    assert given.Some? ==> given.value in named by { assert given in {projected, stored, given}; }
    if projected.Some? && stored.Some? && projected != stored then IssMismatch
    else
      var known := if projected.Some? then projected else stored;
      if known.Some? && given.Some? && known != given then IssMismatch
      else
        match if known.Some? then known else given
        case Some(iss) => Resolved(iss)
        case None => IssRequired
  }

  /** The TCT's recorded issuer; one that is no AID counts as unknown. */
  function ProjectedIssuer(db: Db, jti: Jti, isAid: string -> bool): Option<string> {
    if jti in db.tcts && isAid(db.tcts[jti].issuer) then Some(db.tcts[jti].issuer) else None
  }

  function StoredIssuer(db: Db, jti: Jti): Option<string> {
    if jti in db.entries then db.entries[jti].iss else None
  }

  function IssuerFor(db: Db, jti: Jti, given: Option<string>, isAid: string -> bool): Issuer {
    ResolveIssuer(ProjectedIssuer(db, jti, isAid), StoredIssuer(db, jti), given)
  }

  /** Somebody names this issuer: the recorded TCT, as an AID; the entry already there; or the caller. */
  predicate Names(db: Db, jti: Jti, given: Option<string>, isAid: string -> bool, iss: string) {
    || (jti in db.tcts && db.tcts[jti].issuer == iss && isAid(iss))
    || (jti in db.entries && db.entries[jti].iss == Some(iss))
    || given == Some(iss)
  }

  /** An entry is relayed to the one issuer that anybody names; nobody, or two of them, and it is refused. */
  lemma IssuerForIff(db: Db, jti: Jti, given: Option<string>, isAid: string -> bool)
    ensures var r := IssuerFor(db, jti, given, isAid);
            && (forall v :: r == Resolved(v) <==>
                  Names(db, jti, given, isAid, v) && forall w | Names(db, jti, given, isAid, w) :: w == v)
            && (r.IssRequired? <==> forall v :: !Names(db, jti, given, isAid, v))
  {
    var projected, stored := ProjectedIssuer(db, jti, isAid), StoredIssuer(db, jti);
    forall v ensures v in Named(projected, stored, given) <==> Names(db, jti, given, isAid, v) {
      assert Some(v) in {projected, stored, given} ==> v in Named(projected, stored, given);
    }
    assert forall v :: Named(projected, stored, given) == {v} ==> v in Named(projected, stored, given);
    forall v | v in Named(projected, stored, given) && forall w | w in Named(projected, stored, given) :: w == v
      ensures Named(projected, stored, given) == {v}
    {
    }
    assert Named(projected, stored, given) == {} <==> forall v :: v !in Named(projected, stored, given);
  }

  ghost function ReportTcts(db: Db, list: seq<Option<(Jti, string)>>): Db
    decreases |list|
  {
    if list == [] then db
    else
      var before := ReportTcts(db, list[..|list| - 1]);
      match list[|list| - 1]
      case Some((jti, issuer)) => ReportTct(before, jti, issuer)
      case None => before
  }

  class TctMonitor {
    var entries: map<Jti, Entry>
    var tcts: map<Jti, Tct>
    var rows: map<Jti, Row>

    function State(): Db
      reads this
    {
      Db(entries, tcts, rows)
    }

    constructor ()
      ensures State() == EMPTY
    {
      entries, tcts, rows := map[], map[], map[];
    }

    /** One or two TCTs per event; an entry that does not parse or verify is skipped. */
    method RecordIssuedTcts(list: seq<Option<(Jti, string)>>)
      modifies this
      ensures State() == ReportTcts(old(State()), list)
    {
      var i := 0;
      while i < |list|
        invariant 0 <= i <= |list|
        invariant State() == ReportTcts(old(State()), list[..i])
      {
        assert list[..i + 1][..i] == list[..i];
        match list[i] {
          case Some((jti, issuer)) =>
            var at := TctRevokedAt(State(), jti);
            if jti !in tcts {
              tcts := tcts[jti := Tct(issuer, at.Some?, at)];
            }
          case None =>
        }
        i := i + 1;
      }
      assert list[..i] == list;
    }

    method RecordRevocation(jti: Option<Jti>, ts: Instant)
      modifies this
      ensures State() == if jti.Some? then RevokeTct(old(State()), jti.value, ts) else old(State())
      ensures jti.Some? ==>
                && entries == old(entries) && TctWritten(old(tcts), tcts, jti.value, ts)
                && BelowWritten(old(rows), rows, old(State()).Links(), jti.value, ts)
    {
      if jti.Some? {
        TctRevokedWrites(State(), jti.value, ts);
        tcts := MarkTct(tcts, jti.value, ts);
        CascadeFrom(jti.value, ts);
      }
    }

    method RecordDelegation(delegation: Option<(Jti, Jti)>)
      modifies this
      ensures State() == match delegation
                         case Some((jti, parent)) => ReportDelegation(old(State()), jti, parent)
                         case None => old(State())
    {
      match delegation {
        case Some((jti, parent)) =>
          var at := ParentRevokedAt(State(), parent);
          if jti !in rows {
            rows := rows[jti := Row(parent, at.Some?, at, if at.Some? then Some(ParentRevoked) else None)];
          }
        case None =>
      }
    }

    method RecordDelegationRevocation(jti: Option<Jti>, ts: Instant)
      modifies this
      ensures State() == if jti.Some? then RevokeDelegation(old(State()), jti.value, ts) else old(State())
      ensures jti.Some? ==>
                && entries == old(entries) && tcts == old(tcts)
                && TreeWritten(old(rows), rows, old(State()).Links(), jti.value, ts)
    {
      if jti.Some? {
        DelegationRevokedWrites(State(), jti.value, ts);
        rows := MarkExplicit(rows, jti.value, ts);
        CascadeFrom(jti.value, ts);
      }
    }

    method CascadeFrom(jti: Jti, ts: Instant)
      modifies this`rows
      ensures State() == Cascade(old(State()), jti, ts)
      ensures BelowWritten(old(rows), rows, old(State()).Links(), jti, ts)
    {
      CascadeWrites(State(), jti, ts);
      var below := DescendantsQuery(State().Links(), jti);
      rows := Mark(rows, below, ts);
    }

    method UpsertEntry(jti: Jti, at: Instant, note: Option<string>, iss: string)
      modifies this`entries
      ensures State() == PutEntry(old(State()), jti, at, note, iss)
      ensures EntryWritten(old(entries), entries, jti, at, note, iss)
    {
      if jti !in entries {
        entries := entries[jti := Entry(at, note, Some(iss))];
      } else if entries[jti].iss.None? {
        entries := entries[jti := entries[jti].(iss := Some(iss))];
      }
    }

    /**
     * The operator route, run without interleaving: refused without a write,
     * or the entry put and its revocation projected.
     */
    method PostEntry(jti: Option<Jti>, at: Instant, note: Option<string>, given: Option<string>, isAid: string -> bool)
      returns (reply: Reply)
      modifies this
      ensures reply.JtiInvalid? <==> jti.None?
      ensures forall v | jti.Some? ::
                reply == Created(v) <==>
                && Names(old(State()), jti.value, given, isAid, v)
                && forall w | Names(old(State()), jti.value, given, isAid, w) :: w == v
      ensures jti.Some? ==>
                (reply == Refused(IssRequired) <==> forall v :: !Names(old(State()), jti.value, given, isAid, v))
      ensures jti.Some? && !reply.Created? ==> reply == Refused(IssRequired) || reply == Refused(IssMismatch)
      ensures !reply.Created? ==> State() == old(State())
      ensures reply.Created? ==>
                && State() == RevokeTct(PutEntry(old(State()), jti.value, at, note, reply.iss), jti.value, at)
                && EntryWritten(old(entries), entries, jti.value, at, note, reply.iss)
                && entries[jti.value].iss == Some(reply.iss)
                && TctWritten(old(tcts), tcts, jti.value, at)
                && BelowWritten(old(rows), rows, old(State()).Links(), jti.value, at)
    {
      if jti.None? {
        return JtiInvalid;
      }
      IssuerForIff(State(), jti.value, given, isAid);
      var projected, stored := ProjectedIssuer(State(), jti.value, isAid), StoredIssuer(State(), jti.value);
      var issuer := ResolveIssuer(projected, stored, given);
      match issuer {
        case Resolved(iss) =>
          assert Named(projected, stored, given) == {iss};
          assert given in {projected, stored, given} && stored in {projected, stored, given};
          assert given.Some? ==> given.value in {iss};
          assert stored.Some? ==> stored.value in {iss};
          UpsertEntry(jti.value, at, note, iss);
          RecordRevocation(Some(jti.value), at);
          return Created(iss);
        case _ =>
          return Refused(issuer);
      }
    }
  }
}
