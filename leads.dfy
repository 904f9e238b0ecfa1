/**
 * The `email_leads` table (the `EmailLead` model of webapp/app.py) as a map from the
 * normalised e-mail, which the table's unique index makes a key, to the row.
 */
module Leads {
  import opened Optional
  import opened Crm

  /** One row of `email_leads`; `createdAt` is `ts_utc`, supplied by the caller. */
  datatype Lead = Lead(
    id: nat,
    createdAt: int,
    email: string,
    profile: Option<string>,
    sourceIp: Option<string>,
    userAgent: Option<string>,
    pushed: bool,
    status: Option<string>,
    error: Option<string>)

  /**
   * The row `EmailLead(email=…, profile=…, source_ip=…, user_agent=…)` becomes once
   * inserted: not yet pushed (the column default), no CRM status or error yet.
   */
  function NewLead(id: nat, now: int, email: string, profile: Option<string>,
                   sourceIp: Option<string>, userAgent: Option<string>): (l: Lead)
    ensures !l.pushed && l.status == None && l.error == None
  {
    Lead(id, now, email, profile, sourceIp, userAgent, false, None, None)
  }

  /** Lines 193-195: the three push columns take the push result; nothing else changes. */
  function WithPush(lead: Lead, r: PushResult): (l: Lead)
    ensures l.pushed == r.ok && l.status == Some(r.status) && l.error == r.error
    ensures l.(pushed := lead.pushed, status := lead.status, error := lead.error) == lead
  {
    lead.(pushed := r.ok, status := Some(r.status), error := r.error)
  }

  /** No two rows share an id. */
  predicate DistinctIds(leads: map<string, Lead>) {
    forall e, f :: e in leads && f in leads && leads[e].id == leads[f].id ==> e == f
  }

  class LeadStore {
    var leads: map<string, Lead>
    var nextId: nat

    /** Each row sits under its own e-mail, and ids are distinct and below the next one to hand out. */
    ghost predicate Valid()
      reads this
    {
      && (forall e :: e in leads ==> leads[e].email == e && leads[e].id < nextId)
      && DistinctIds(leads)
    }

    /** `db.create_all()` on a fresh database: no rows, ids start at 1. */
    constructor ()
      ensures Valid() && leads == map[] && nextId == 1
    {
      leads := map[];
      nextId := 1;
    }

    /**
     * Lines 183-190: insert a new row; when the unique index refuses it, roll back
     * and re-read the existing row, which is left exactly as it was.
     */
    method FindOrCreate(email: string, profile: Option<string>, sourceIp: Option<string>,
                        userAgent: Option<string>, now: int) returns (created: bool)
      requires Valid()
      modifies this
      ensures Valid() && email in leads
      ensures created == (email !in old(leads))
      ensures created ==> leads == old(leads)[email := NewLead(old(nextId), now, email, profile, sourceIp, userAgent)]
                          && nextId == old(nextId) + 1
      ensures !created ==> leads == old(leads) && nextId == old(nextId)
    {
      if email in leads {
        created := false;
      } else {
        leads := leads[email := NewLead(nextId, now, email, profile, sourceIp, userAgent)];
        nextId := nextId + 1;
        created := true;
      }
    }

    /** Lines 193-196: stamp the push result on the row and commit. */
    method RecordPush(email: string, r: PushResult)
      requires Valid() && email in leads
      modifies this
      ensures Valid() && nextId == old(nextId)
      ensures leads == old(leads)[email := WithPush(old(leads)[email], r)]
    {
      leads := leads[email := WithPush(leads[email], r)];
    }
  }
}
