/** The database URL fix-up done once at start-up (webapp/app.py, lines 27-30). */
module Config {
  import opened Text

  const LegacyScheme: string := "postgres://"
  const Scheme: string := "postgresql://"
  const DevDatabase: string := "sqlite:///dev.db"

  /**
   * `DATABASE_URL` with a leading `postgres://` rewritten by `replace(…, 1)`,
   * and the local SQLite file when the variable is empty or unset.
   */
  function DatabaseUri(raw: string): (uri: string)
    ensures StartsWith(raw, LegacyScheme) ==> uri == Scheme + raw[|LegacyScheme|..]
    ensures !StartsWith(raw, LegacyScheme) && raw != "" ==> uri == raw
    ensures raw == "" ==> uri == DevDatabase
    ensures uri != "" && !StartsWith(uri, LegacyScheme)
  {
    var url := if StartsWith(raw, LegacyScheme) then ReplaceFirst(raw, LegacyScheme, Scheme) else raw;
    assert StartsWith(raw, LegacyScheme) ==> url == Scheme + raw[|LegacyScheme|..] && url[8] == 'q' by {
      if StartsWith(raw, LegacyScheme) {
        ReplaceLeadingOccurrence(raw, LegacyScheme, Scheme);
      }
    }
    assert DevDatabase[0] != LegacyScheme[0];
    if url != "" then url else DevDatabase
  }

  /** Running the fix-up on its own output changes nothing. */
  lemma DatabaseUriIdempotent(raw: string)
    ensures DatabaseUri(DatabaseUri(raw)) == DatabaseUri(raw)
  {
  }
}

/**
 * `POST /submit-email` (webapp/app.py, lines 166-202): validate the address, find or
 * create its lead, push it to the CRM and stamp the outcome on the lead.
 */
module Ingestion {
  import opened Optional
  import opened Text
  import opened EmailAddress
  import opened Crm
  import opened Leads

  /** The parts of the request the handler reads: two JSON fields and three headers. */
  datatype SubmitRequest = SubmitRequest(
    email: Option<string>,
    profile: Option<string>,
    userAgent: Option<string>,
    forwardedFor: Option<string>,
    remoteAddr: Option<string>)

  /** `{"ok": true}` with 200, or `{"ok": false, "error": …}` with 400. */
  datatype SubmitResponse = Accepted | Rejected(error: string) {
    function HttpStatus(): (code: nat)
      ensures code == 200 <==> Accepted?
      ensures code == 400 <==> Rejected?
    {
      if Accepted? then 200 else 400
    }
  }

  const EmailRequired: string := "email_required"
  const EmailInvalid: string := "email_invalid"
  const NoAddress: string := "-"

  /** A present, non-empty value: Python's truthiness of an optional string. */
  predicate HasText(o: Option<string>) {
    o.Some? && o.value != ""
  }

  /** `(data.get("email") or "").strip().lower()`. */
  function EmailKey(raw: Option<string>): (key: string)
    ensures raw.None? ==> key == ""
    ensures raw.Some? ==> key == Normalize(raw.value)
    ensures IsTrimmed(key) && Normalize(key) == key
  {
    NormalizeIdempotent(raw.GetOr(""));
    Normalize(raw.GetOr(""))
  }

  /** `(data.get("profile") or "").strip() or None`. */
  function ProfileOf(raw: Option<string>): (p: Option<string>)
    ensures p == None <==> forall i :: 0 <= i < |raw.GetOr("")| ==> IsSpace(raw.GetOr("")[i])
    ensures p.Some? ==> p.value == Trim(raw.GetOr("")) && p.value != "" && IsTrimmed(p.value)
  {
    TrimEmptyIff(raw.GetOr(""));
    var t := Trim(raw.GetOr(""));
    if t == "" then None else Some(t)
  }

  /** `request.headers.get("User-Agent", "-")`. */
  function UserAgentOf(header: Option<string>): string {
    header.GetOr(NoAddress)
  }

  /** `s[..c]` is the first field of `s`: it holds no `sep` and ends at the first `sep` or at the end. */
  predicate FirstFieldEnd(s: string, sep: char, c: int) {
    0 <= c <= |s| && sep !in s[..c] && (c == |s| || s[c] == sep)
  }

  /**
   * `xff.split(",")[0].strip()`: the first hop named in `X-Forwarded-For` is the text
   * before the first comma (or the whole header), with only its surrounding whitespace removed.
   */
  function FirstHop(forwardedFor: string): (hop: string)
    ensures exists a, b, c :: FirstFieldEnd(forwardedFor, ',', c) && SpaceOutside(forwardedFor[..c], a, b)
                              && hop == forwardedFor[a..b]
    ensures ',' !in hop && IsTrimmed(hop)
  {
    var first := BeforeFirst(forwardedFor, ',');
    var hop := Trim(first);
    StrippedFirstField(forwardedFor, first, hop);
    hop
  }

  /** The stripped text before the first comma is a slice of the header with whitespace around it in that field. */
  lemma {:induction false} StrippedFirstField(s: string, first: string, hop: string)
    requires first <= s && ',' !in first && (|first| < |s| ==> s[|first|] == ',')
    requires exists a, b :: SpaceOutside(first, a, b) && hop == first[a..b]
    ensures exists a, b, c :: FirstFieldEnd(s, ',', c) && SpaceOutside(s[..c], a, b) && hop == s[a..b]
  {
    var a, b :| SpaceOutside(first, a, b) && hop == first[a..b];
    assert first == s[..|first|];
    assert FirstFieldEnd(s, ',', |first|) && SpaceOutside(s[..|first|], a, b) && hop == s[a..b];
  }

  /**
   * `_client_ip()`: the first forwarded hop when the header is non-empty, otherwise
   * the peer address or "-"; any candidate `isIp` (standing for `ip_address`) rejects becomes "-".
   */
  function ClientIp(forwardedFor: Option<string>, remoteAddr: Option<string>, isIp: string -> bool): (ip: string)
    ensures ip == NoAddress || isIp(ip)
    ensures HasText(forwardedFor) ==>
      ip == (if isIp(FirstHop(forwardedFor.value)) then FirstHop(forwardedFor.value) else NoAddress)
    ensures !HasText(forwardedFor) && HasText(remoteAddr) ==>
      ip == (if isIp(remoteAddr.value) then remoteAddr.value else NoAddress)
    ensures !HasText(forwardedFor) && !HasText(remoteAddr) ==> ip == NoAddress
  {
    var candidate :=
      if HasText(forwardedFor) then FirstHop(forwardedFor.value)
      else if HasText(remoteAddr) then remoteAddr.value
      else NoAddress;
    if isIp(candidate) then candidate else NoAddress
  }

  /** The validation error for a normalised address, if any (lines 178-181). */
  function Rejection(email: string): (e: Option<string>)
    ensures e == None <==> IsEmail(email)
    ensures e == Some(EmailRequired) <==> email == ""
    ensures e == Some(EmailInvalid) <==> email != "" && !IsEmail(email)
  {
    if email == "" then Some(EmailRequired)
    else if !IsEmail(email) then Some(EmailInvalid)
    else None
  }

  /** `email_required` is answered exactly when the submitted address is missing, empty or all whitespace. */
  lemma EmailRequiredIff(raw: Option<string>)
    ensures Rejection(EmailKey(raw)) == Some(EmailRequired)
        <==> forall i :: 0 <= i < |raw.GetOr("")| ==> IsSpace(raw.GetOr("")[i])
  {
    TrimEmptyIff(raw.GetOr(""));
  }

  /** The table after a valid submission of `email` whose push returned `r`. */
  function StoreAfterSubmit(leads: map<string, Lead>, nextId: nat, email: string, profile: Option<string>,
                            sourceIp: string, userAgent: string, now: int, r: PushResult): map<string, Lead>
  {
    var lead := if email in leads then leads[email]
                else NewLead(nextId, now, email, profile, Some(sourceIp), Some(userAgent));
    leads[email := WithPush(lead, r)]
  }

  /** Every key is a normalised address that passed validation. */
  ghost predicate KeysAreValidEmails(leads: map<string, Lead>) {
    forall e :: e in leads ==> Normalize(e) == e && IsEmail(e)
  }

  /**
   * Lines 183-196 for an address that passed validation: find or create its row,
   * push it to the CRM and stamp the result on the row.
   */
  method StoreLead(store: LeadStore, email: string, profile: Option<string>, ip: string, ua: string, now: int,
                   cfg: CrmConfig, tagId: string, send: Transport) returns (push: PushRun)
    requires store.Valid()
    modifies store
    ensures store.Valid()
    ensures push == Push(cfg, tagId, send)
    ensures store.leads == StoreAfterSubmit(old(store.leads), old(store.nextId), email, profile, ip, ua, now, push.result)
    ensures store.nextId == old(store.nextId) + (if email in old(store.leads) then 0 else 1)
  {
    ghost var before, firstId := store.leads, store.nextId;
    ghost var lead := if email in before then before[email] else NewLead(firstId, now, email, profile, Some(ip), Some(ua));
    var created := store.FindOrCreate(email, profile, Some(ip), Some(ua), now);
    assert store.leads == before[email := lead];
    var result, requests, sleeps := PushToSystemeio(cfg, tagId, send);
    store.RecordPush(email, result);
    push := PushRun(result, requests, sleeps);
    assert store.leads == before[email := WithPush(lead, result)];
  }

  /** `submit_email`, from the JSON body on; the push goes through `send`, the clock reads `now`. */
  method SubmitEmail(store: LeadStore, cfg: CrmConfig, tagId: string, req: SubmitRequest,
                     now: int, send: Transport, isIp: string -> bool)
    returns (resp: SubmitResponse, push: Option<PushRun>)
    requires store.Valid()
    modifies store
    ensures store.Valid()
    ensures resp == if IsEmail(EmailKey(req.email)) then Accepted else Rejected(Rejection(EmailKey(req.email)).value)
    ensures !IsEmail(EmailKey(req.email)) ==>
      push == None && store.leads == old(store.leads) && store.nextId == old(store.nextId)
    ensures IsEmail(EmailKey(req.email)) ==> push == Some(Push(cfg, tagId, send))
    ensures IsEmail(EmailKey(req.email)) ==>
      store.leads == StoreAfterSubmit(old(store.leads), old(store.nextId), EmailKey(req.email), ProfileOf(req.profile),
                                      ClientIp(req.forwardedFor, req.remoteAddr, isIp), UserAgentOf(req.userAgent),
                                      now, Push(cfg, tagId, send).result)
    ensures IsEmail(EmailKey(req.email)) ==>
      store.nextId == old(store.nextId) + (if EmailKey(req.email) in old(store.leads) then 0 else 1)
    ensures KeysAreValidEmails(old(store.leads)) ==> KeysAreValidEmails(store.leads)
  {
    var email := EmailKey(req.email);
    var profile := ProfileOf(req.profile);
    var ua := UserAgentOf(req.userAgent);
    var ip := ClientIp(req.forwardedFor, req.remoteAddr, isIp);
    if email == "" {
      return Rejected(EmailRequired), None;
    }
    if !IsEmail(email) {
      return Rejected(EmailInvalid), None;
    }
    ghost var before, firstId := store.leads, store.nextId;
    var run := StoreLead(store, email, profile, ip, ua, now, cfg, tagId, send);
    if KeysAreValidEmails(before) {
      SubmitKeepsKeysValid(before, firstId, email, profile, ip, ua, now, run.result);
    }
    resp, push := Accepted, Some(run);
  }

  // ---------------------------------------------------------------------------
  // What a valid submission does to the table
  // ---------------------------------------------------------------------------

  /** A first submission adds exactly one row, unpushed until the push result is stamped on it. */
  lemma SubmitNewEmail(leads: map<string, Lead>, nextId: nat, email: string, profile: Option<string>,
                       sourceIp: string, userAgent: string, now: int, r: PushResult)
    requires email !in leads
    ensures var after := StoreAfterSubmit(leads, nextId, email, profile, sourceIp, userAgent, now, r);
      && |after| == |leads| + 1
      && after[email] == WithPush(NewLead(nextId, now, email, profile, Some(sourceIp), Some(userAgent)), r)
  {
  }

  /**
   * A repeated submission adds no row and keeps the row's id, e-mail, timestamp,
   * profile, source address and user agent: only the three push columns change.
   */
  lemma SubmitKnownEmail(leads: map<string, Lead>, nextId: nat, email: string, profile: Option<string>,
                         sourceIp: string, userAgent: string, now: int, r: PushResult)
    requires email in leads
    ensures var after := StoreAfterSubmit(leads, nextId, email, profile, sourceIp, userAgent, now, r);
      && |after| == |leads|
      && after[email].id == leads[email].id && after[email].email == leads[email].email
      && after[email].createdAt == leads[email].createdAt && after[email].profile == leads[email].profile
      && after[email].sourceIp == leads[email].sourceIp && after[email].userAgent == leads[email].userAgent
      && after[email].pushed == r.ok && after[email].status == Some(r.status) && after[email].error == r.error
  {
    var after := StoreAfterSubmit(leads, nextId, email, profile, sourceIp, userAgent, now, r);
    assert after.Keys == leads.Keys;
  }

  /** A submission touches no row but its own. */
  lemma SubmitTouchesOneLead(leads: map<string, Lead>, nextId: nat, email: string, profile: Option<string>,
                             sourceIp: string, userAgent: string, now: int, r: PushResult)
    ensures var after := StoreAfterSubmit(leads, nextId, email, profile, sourceIp, userAgent, now, r);
      && after.Keys == leads.Keys + {email}
      && forall e :: e in leads && e != email ==> after[e] == leads[e]
  {
  }

  /** The row's push columns always hold the latest push result, whatever it was. */
  lemma SubmitStampsLatestPush(leads: map<string, Lead>, nextId: nat, email: string, profile: Option<string>,
                               sourceIp: string, userAgent: string, now: int, r: PushResult)
    ensures var after := StoreAfterSubmit(leads, nextId, email, profile, sourceIp, userAgent, now, r);
      && email in after && after[email].email == (if email in leads then leads[email].email else email)
      && after[email].pushed == r.ok && after[email].status == Some(r.status) && after[email].error == r.error
  {
  }

  /**
   * Submitting the same address twice leaves a single row for it: the id, timestamp,
   * profile, source address and user agent are those of the row's first submission,
   * and the push columns those of the second push.
   */
  lemma SubmitTwice(leads: map<string, Lead>, nextId: nat, email: string, p1: Option<string>, p2: Option<string>,
                    ip1: string, ip2: string, ua1: string, ua2: string, t1: int, t2: int,
                    r1: PushResult, r2: PushResult)
    ensures var once := StoreAfterSubmit(leads, nextId, email, p1, ip1, ua1, t1, r1);
      var twice := StoreAfterSubmit(once, nextId + (if email in leads then 0 else 1), email, p2, ip2, ua2, t2, r2);
      && |twice| == |once| == |leads| + (if email in leads then 0 else 1)
      && twice[email].id == once[email].id
      && twice[email].profile == once[email].profile
      && (email !in leads ==>
            twice[email].id == nextId && twice[email].createdAt == t1 && twice[email].profile == p1
            && twice[email].sourceIp == Some(ip1) && twice[email].userAgent == Some(ua1))
      && (email in leads ==>
            twice[email].id == leads[email].id && twice[email].createdAt == leads[email].createdAt
            && twice[email].profile == leads[email].profile
            && twice[email].sourceIp == leads[email].sourceIp && twice[email].userAgent == leads[email].userAgent)
      && twice[email].pushed == r2.ok && twice[email].status == Some(r2.status) && twice[email].error == r2.error
  {
    var once := StoreAfterSubmit(leads, nextId, email, p1, ip1, ua1, t1, r1);
    if email in leads {
      SubmitKnownEmail(leads, nextId, email, p1, ip1, ua1, t1, r1);
    } else {
      SubmitNewEmail(leads, nextId, email, p1, ip1, ua1, t1, r1);
    }
    SubmitKnownEmail(once, nextId + (if email in leads then 0 else 1), email, p2, ip2, ua2, t2, r2);
  }

  /** Two different addresses give two rows. */
  lemma SubmitTwoAddresses(leads: map<string, Lead>, nextId: nat, e1: string, e2: string,
                           profile: Option<string>, ip: string, ua: string, now: int, r1: PushResult, r2: PushResult)
    requires e1 != e2 && e1 !in leads && e2 !in leads
    ensures var once := StoreAfterSubmit(leads, nextId, e1, profile, ip, ua, now, r1);
      |StoreAfterSubmit(once, nextId + 1, e2, profile, ip, ua, now, r2)| == |leads| + 2
  {
    var once := StoreAfterSubmit(leads, nextId, e1, profile, ip, ua, now, r1);
    SubmitNewEmail(leads, nextId, e1, profile, ip, ua, now, r1);
    SubmitNewEmail(once, nextId + 1, e2, profile, ip, ua, now, r2);
  }

  /** Only validated, normalised addresses ever become keys, so "Foo@Bar.com" cannot sit beside "foo@bar.com". */
  lemma SubmitKeepsKeysValid(leads: map<string, Lead>, nextId: nat, email: string, profile: Option<string>,
                             sourceIp: string, userAgent: string, now: int, r: PushResult)
    requires KeysAreValidEmails(leads)
    requires IsEmail(email) && Normalize(email) == email
    ensures KeysAreValidEmails(StoreAfterSubmit(leads, nextId, email, profile, sourceIp, userAgent, now, r))
  {
  }

  /** Two keys of a validated table never differ only in letter case or surrounding whitespace. */
  lemma OneLeadPerAddress(leads: map<string, Lead>, e1: string, e2: string)
    requires KeysAreValidEmails(leads)
    requires e1 in leads && e2 in leads && Normalize(e1) == Normalize(e2)
    ensures e1 == e2
  {
  }
}
