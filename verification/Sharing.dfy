/**
 * The share service over a table of links. Creating checks candidate credentials
 * until one is free, and resolving and revoking rewrite the record they concern.
 */
module Sharing {
  import opened Common
  import opened ShareLinks

  datatype Options = Options(expiresAt: Option<int>, passcode: Option<string>)

  // --------------------------------------------------------------- the table

  /** No two rows share an id or a credential. */
  ghost predicate Distinct(rows: seq<Link>) {
    rows == [] || (Distinct(Front(rows)) && Apart(Front(rows), Last(rows)))
  }

  ghost predicate Apart(rows: seq<Link>, link: Link) {
    forall l :: l in rows ==> l.id != link.id && l.credential != link.credential
  }

  /** The first row with a credential. */
  function WithCredential(rows: seq<Link>, credential: string): Option<Link> {
    if rows == [] then None
    else if WithCredential(Front(rows), credential).Some? then WithCredential(Front(rows), credential)
    else if Last(rows).credential == credential then Some(Last(rows))
    else None
  }

  function WithId(rows: seq<Link>, id: Id): Option<Link> {
    if rows == [] then None
    else if WithId(Front(rows), id).Some? then WithId(Front(rows), id)
    else if Last(rows).id == id then Some(Last(rows))
    else None
  }

  lemma {:induction false} LookupsFind(rows: seq<Link>, credential: string, id: Id)
    ensures WithCredential(rows, credential).Some? ==>
              WithCredential(rows, credential).value in rows && WithCredential(rows, credential).value.credential == credential
    ensures WithCredential(rows, credential).None? ==> forall l :: l in rows ==> l.credential != credential
    ensures WithId(rows, id).Some? ==> WithId(rows, id).value in rows && WithId(rows, id).value.id == id
    ensures WithId(rows, id).None? ==> forall l :: l in rows ==> l.id != id
  {
    if rows != [] {
      LookupsFind(Front(rows), credential, id);
      assert rows == Front(rows) + [Last(rows)];
    }
  }

  /** The rows left when those with an id are deleted. */
  function Without(rows: seq<Link>, id: Id): seq<Link> {
    if rows == [] then []
    else Without(Front(rows), id) + if Last(rows).id == id then [] else [Last(rows)]
  }

  lemma {:induction false} WithoutKeepsOthers(rows: seq<Link>, id: Id)
    ensures forall l :: l in Without(rows, id) <==> l in rows && l.id != id
  {
    if rows != [] {
      WithoutKeepsOthers(Front(rows), id);
      assert rows == Front(rows) + [Last(rows)];
    }
  }

  lemma {:induction false} WithoutStaysDistinct(rows: seq<Link>, id: Id)
    requires Distinct(rows)
    ensures Distinct(Without(rows, id))
  {
    if rows != [] {
      WithoutStaysDistinct(Front(rows), id);
      WithoutKeepsOthers(Front(rows), id);
      var rest := Without(Front(rows), id);
      if Last(rows).id == id {
        assert Without(rows, id) == rest;
      } else {
        AppendApart(rest, Last(rows));
      }
    }
  }

  lemma AppendApart(rows: seq<Link>, link: Link)
    requires Distinct(rows) && Apart(rows, link)
    ensures Distinct(rows + [link])
  {
    assert Front(rows + [link]) == rows && Last(rows + [link]) == link;
  }

  lemma {:induction false} DistinctApart(rows: seq<Link>, a: Link, b: Link)
    requires Distinct(rows) && a in rows && b in rows && a != b
    ensures a.id != b.id && a.credential != b.credential
  {
    assert rows == Front(rows) + [Last(rows)];
    if a in Front(rows) && b in Front(rows) {
      DistinctApart(Front(rows), a, b);
    }
  }

  /** A row is deleted and inserted again, changed. */
  function Rewritten(rows: seq<Link>, next: Link): seq<Link> {
    Without(rows, next.id) + [next]
  }

  function HistoryOf(history: map<Id, seq<Event>>, id: Id): seq<Event> {
    if id in history then history[id] else []
  }

  /** The table is in order, and every record tells its link's history. */
  ghost predicate Faithful(v: Verifier, rows: seq<Link>, history: map<Id, seq<Event>>) {
    && Distinct(rows)
    && forall l :: l in rows ==> Tells(v, l, HistoryOf(history, l.id))
  }

  /** The links that exist, as they were created. */
  function Terms(rows: seq<Link>): set<Link> {
    set l | l in rows :: Created(l)
  }

  lemma RewritingIsFaithful(v: Verifier, rows: seq<Link>, history: map<Id, seq<Event>>, link: Link, next: Link, h: seq<Event>)
    requires Faithful(v, rows, history) && link in rows
    requires Created(next) == Created(link) && Tells(v, next, h)
    ensures Faithful(v, Rewritten(rows, next), history[link.id := h])
    ensures Terms(Rewritten(rows, next)) == Terms(rows)
    ensures forall l :: l in Rewritten(rows, next) <==> l == next || (l in rows && l.id != link.id)
  {
    hide Tells;
    var after := Rewritten(rows, next);
    WithoutKeepsOthers(rows, next.id);
    WithoutStaysDistinct(rows, next.id);
    assert next.id == Created(next).id && link.id == Created(link).id && next.credential == Created(next).credential
        && link.credential == Created(link).credential;
    forall l | l in Without(rows, next.id)
      ensures l.id != next.id && l.credential != next.credential
    {
      DistinctApart(rows, l, link);
    }
    AppendApart(Without(rows, next.id), next);
    forall l | l in after
      ensures Tells(v, l, HistoryOf(history[link.id := h], l.id)) && Created(l) in Terms(rows)
    {
    }
    forall l | l in rows
      ensures Created(l) in Terms(after)
    {
      if l.id == link.id {
        if l != link {
          DistinctApart(rows, l, link);
        }
        assert next in after;
      } else {
        assert l in after;
      }
    }
  }

  /** An unchanged record whose history grew needs no rewriting. */
  lemma UnchangedIsFaithful(v: Verifier, rows: seq<Link>, history: map<Id, seq<Event>>, link: Link, h: seq<Event>)
    requires Faithful(v, rows, history) && link in rows && Tells(v, link, h)
    ensures Faithful(v, rows, history[link.id := h])
    ensures forall l :: l in rows <==> l == link || (l in rows && l.id != link.id)
  {
    hide Tells;
    forall l | l in rows
      ensures Tells(v, l, HistoryOf(history[link.id := h], l.id))
      ensures l == link || l.id != link.id
    {
      if l != link {
        DistinctApart(rows, l, link);
      }
    }
  }

  lemma InsertingIsFaithful(v: Verifier, rows: seq<Link>, history: map<Id, seq<Event>>, link: Link)
    requires Faithful(v, rows, history) && link == Created(link)
    requires WithCredential(rows, link.credential).None? && WithId(rows, link.id).None?
    ensures Faithful(v, rows + [link], history[link.id := []])
    ensures Terms(rows + [link]) == Terms(rows) + {link}
  {
    hide Tells, Distinct;
    var after, grown := rows + [link], history[link.id := []];
    LookupsFind(rows, link.credential, link.id);
    AppendApart(rows, link);
    NothingToTell(v, link);
    forall l | l in after
      ensures Tells(v, l, HistoryOf(grown, l.id))
    {
    }
    TermsAppend(rows, link);
  }

  lemma NothingToTell(v: Verifier, link: Link)
    requires link == Created(link)
    ensures Tells(v, link, [])
  {
  }

  lemma TermsAppend(rows: seq<Link>, link: Link)
    ensures Terms(rows + [link]) == Terms(rows) + {Created(link)}
  {
    forall t | t in Terms(rows) + {Created(link)}
      ensures t in Terms(rows + [link])
    {
      if t in Terms(rows) {
        var l :| l in rows && Created(l) == t;
        assert l in rows + [link];
      } else {
        assert link in rows + [link];
      }
    }
  }

  // ------------------------------------------------------------- the service

  class ShareService {
    const verify: Verifier
    /** The stored form of a passcode, under a random salt. */
    const hash: (string, string) -> string
    var videos: set<Id>
    var rows: seq<Link>
    /** Everything that ever happened to each link. */
    ghost var history: map<Id, seq<Event>>

    constructor (verify: Verifier, hash: (string, string) -> string, videos: set<Id>)
      ensures Valid() && rows == [] && history == map[]
      ensures this.verify == verify && this.hash == hash && this.videos == videos
    {
      this.verify, this.hash, this.videos := verify, hash, videos;
      rows, history := [], map[];
    }

    ghost predicate Valid()
      reads this
    {
      Faithful(verify, rows, history)
    }

    method FindByCredential(credential: string) returns (found: Option<Link>)
      ensures found == WithCredential(rows, credential)
    {
      for i := 0 to |rows|
        invariant WithCredential(rows[..i], credential).None?
      {
        assert Front(rows[..i + 1]) == rows[..i] && Last(rows[..i + 1]) == rows[i];
        if rows[i].credential == credential {
          FirstStays(rows, i + 1, credential);
          return Some(rows[i]);
        }
      }
      assert rows[..|rows|] == rows;
      found := None;
    }

    /** Try candidates until one is free, at most eight times. */
    method MintUniqueCredential(generate: nat -> string) returns (minted: Result<string, Error>)
      ensures minted.Ok? ==>
                && WithCredential(rows, minted.value).None?
                && (exists k: nat :: k < MAX_CREDENTIAL_ATTEMPTS && minted.value == generate(k) &&
                      (forall j: nat :: j < k ==> WithCredential(rows, generate(j)).Some?))
      ensures minted.Err? ==>
                && minted.error == Conflict
                && (forall j: nat :: j < MAX_CREDENTIAL_ATTEMPTS ==> WithCredential(rows, generate(j)).Some?)
    {
      for attempt := 0 to MAX_CREDENTIAL_ATTEMPTS
        invariant forall j: nat :: j < attempt ==> WithCredential(rows, generate(j)).Some?
      {
        var candidate := generate(attempt);
        var existing := FindByCredential(candidate);
        if existing.None? {
          return Ok(candidate);
        }
      }
      minted := Err(Conflict);
    }

    /** A new link with a credential no other link has; a refusal changes nothing. */
    method CreateLink(videoId: Id, opts: Options, permitted: bool, generate: nat -> string, salt: string, newId: Id)
      returns (created: Result<Dto, Error>)
      requires Valid()
      modifies this`rows, this`history
      ensures Valid()
      ensures created.Err? ==> rows == old(rows) && history == old(history)
      ensures opts.passcode == Some("") ==> created == Err(ValidationFailed)
      ensures opts.passcode != Some("") && videoId !in videos ==> created == Err(NotFound)
      ensures opts.passcode != Some("") && videoId in videos && !permitted ==> created == Err(AuthorizationDenied)
      ensures opts.passcode != Some("") && videoId in videos && permitted ==>
                && (created.Err? ==> created.error == Conflict)
                && (created.Err? <==>
                      || WithId(old(rows), newId).Some?
                      || (forall j: nat :: j < MAX_CREDENTIAL_ATTEMPTS ==> WithCredential(old(rows), generate(j)).Some?))
      ensures created.Ok? ==>
                && rows != [] && rows == old(rows) + [Last(rows)]
                && created.value == ToDto(Last(rows))
                && Last(rows) == Created(Last(rows))
                && Last(rows).id == newId && Last(rows).videoId == videoId && Last(rows).expiresAt == opts.expiresAt
                && (opts.passcode.None? ==> Last(rows).passcodeHash.None?)
                && (opts.passcode.Some? ==> Last(rows).passcodeHash == Some(hash(salt, opts.passcode.value)))
                && (forall l :: l in old(rows) ==> l.credential != Last(rows).credential)
                && history == old(history)[newId := []]
    {
      if opts.passcode == Some("") {
        return Err(ValidationFailed);
      }
      if videoId !in videos {
        return Err(NotFound);
      }
      if !permitted {
        return Err(AuthorizationDenied);
      }
      var minted := MintUniqueCredential(generate);
      if minted.Err? {
        return Err(Conflict);
      }
      var passcodeHash := if opts.passcode.Some? then Some(hash(salt, opts.passcode.value)) else None;
      var record := Link(newId, videoId, minted.value, opts.expiresAt, passcodeHash, None, 0, None);
      if WithId(rows, newId).Some? {
        return Err(Conflict);
      }
      InsertingIsFaithful(verify, rows, history, record);
      LookupsFind(rows, minted.value, newId);
      rows, history := rows + [record], history[newId := []];
      created := Ok(ToDto(record));
    }

    /** The answer is the one the whole history gives, and the attempt joins the history of that link alone. */
    method Resolve(credential: string, passcode: Option<string>, now: int) returns (access: Result<Id, Error>)
      requires Valid()
      modifies this`rows, this`history
      ensures Valid() && Terms(rows) == Terms(old(rows))
      ensures match WithCredential(old(rows), credential)
              case None => access == Err(ShareLinkExpired) && rows == old(rows) && history == old(history)
              case Some(link) =>
                var h := HistoryOf(old(history), link.id);
                && access == Answer(verify, Created(link), h, now, passcode)
                && history == old(history)[link.id := h + [Attempt(now, passcode)]]
      // Access is granted exactly when nobody revoked the link, it has neither expired nor a
      // lock, and it is open or the hasher accepts the passcode, which must not be empty.
      // Each refused passcode is counted, the fifth locks the link, and a right one clears it.
      ensures match WithCredential(old(rows), credential)
              case None => true
              case Some(link) =>
                var h := HistoryOf(old(history), link.id);
                var looked := (forall i :: 0 <= i < |h| ==> h[i].Attempt?) &&
                              (link.expiresAt.Some? ==> now < link.expiresAt.value) &&
                              (link.lockedUntil.Some? ==> link.lockedUntil.value <= now);
                var accepted := passcode.Some? && passcode.value != "" &&
                                link.passcodeHash.Some? && verify(link.passcodeHash.value, passcode.value);
                var refused := (if link.lockedUntil.Some? then 0 else link.failedAttempts) + 1;
                && link in old(rows) && link.credential == credential
                && (access.Ok? <==> looked && (link.passcodeHash.None? || accepted))
                && (access.Ok? ==> access.value == link.videoId)
                && (looked && access.Err? ==> access.error == if refused < 5 then ShareLinkExpired else ShareLinkLocked)
                && forall l :: l in rows <==>
                     (l in old(rows) && l.id != link.id) ||
                     l == if !looked || link.passcodeHash.None? then link
                          else if accepted then link.(failedAttempts := 0, lockedUntil := None)
                          else if refused < 5 then link.(failedAttempts := refused, lockedUntil := None)
                          else link.(failedAttempts := refused, lockedUntil := Some(now + SHARE_LOCK_DURATION_MS))
    {
      hide Tells, Answer, Distinct, Terms;
      var found := FindByCredential(credential);
      if found.None? {
        return Err(ShareLinkExpired);
      }
      var link := found.value;
      LookupsFind(rows, credential, link.id);
      ghost var h := HistoryOf(history, link.id);
      ghost var grown := h + [Attempt(now, passcode)];
      ghost var (next, _) := ShareLinks.Resolve(verify, link, now, passcode);
      ResolveTells(verify, link, h, now, passcode);
      RevocationTold(verify, link, h);
      RewritingIsFaithful(verify, rows, history, link, next, grown);
      if next == link {
        UnchangedIsFaithful(verify, rows, history, link, grown);
      }
      history := history[link.id := grown];
      if link.revokedAt.Some? {
        return Err(ShareLinkExpired);
      }
      if link.expiresAt.Some? && link.expiresAt.value <= now {
        return Err(ShareLinkExpired);
      }
      if link.lockedUntil.Some? && link.lockedUntil.value > now {
        return Err(ShareLinkLocked);
      }
      if link.passcodeHash.None? {
        return Ok(link.videoId);
      }
      var baseAttempts := if link.lockedUntil.Some? then 0 else link.failedAttempts;
      var supplied := if passcode.Some? then passcode.value else "";
      if |supplied| > 0 && verify(link.passcodeHash.value, supplied) {
        if link.failedAttempts != 0 || link.lockedUntil.Some? {
          Update(link.(failedAttempts := 0, lockedUntil := None));
        }
        return Ok(link.videoId);
      }
      var failedAttempts := baseAttempts + 1;
      if failedAttempts >= MAX_PASSCODE_ATTEMPTS {
        Update(link.(failedAttempts := failedAttempts, lockedUntil := Some(now + SHARE_LOCK_DURATION_MS)));
        return Err(ShareLinkLocked);
      }
      Update(link.(failedAttempts := failedAttempts, lockedUntil := None));
      access := Err(ShareLinkExpired);
    }

    /** Revoke a link for good; revoking it again changes nothing. */
    method Revoke(linkId: Id, permitted: bool, now: int) returns (refusal: Option<Error>)
      requires Valid()
      modifies this`rows, this`history
      ensures Valid() && Terms(rows) == Terms(old(rows))
      ensures match WithId(old(rows), linkId)
              case None => refusal == Some(NotFound)
              case Some(link) =>
                if link.videoId !in videos then refusal == Some(NotFound)
                else if !permitted then refusal == Some(AuthorizationDenied)
                else
                  && refusal == None
                  && history == old(history)[linkId := HistoryOf(old(history), linkId) + [Revocation(now)]]
                  && (link.revokedAt.Some? ==> rows == old(rows))
                  && (link.revokedAt.None? ==>
                        forall l :: l in rows <==>
                          (l in old(rows) && l.id != linkId) || l == link.(revokedAt := Some(now)))
      ensures refusal.Some? ==> rows == old(rows) && history == old(history)
    {
      hide Tells;
      var found := FindById(linkId);
      if found.None? {
        return Some(NotFound);
      }
      var link := found.value;
      LookupsFind(rows, "", linkId);
      if link.videoId !in videos {
        return Some(NotFound);
      }
      if !permitted {
        return Some(AuthorizationDenied);
      }
      ghost var h := HistoryOf(history, linkId);
      ghost var grown := h + [Revocation(now)];
      RevokeTells(verify, link, h, now);
      RewritingIsFaithful(verify, rows, history, link, ShareLinks.Revoke(link, now), grown);
      if link.revokedAt.Some? {
        UnchangedIsFaithful(verify, rows, history, link, grown);
        history := history[linkId := grown];
        return None;
      }
      history := history[linkId := grown];
      Update(link.(revokedAt := Some(now)));
      refusal := None;
    }

    method FindById(id: Id) returns (found: Option<Link>)
      ensures found == WithId(rows, id)
    {
      found := WithId(rows, id);
    }

    /** Persist a changed record by deleting its row and inserting it again. */
    method Update(record: Link)
      modifies this`rows
      ensures rows == Rewritten(old(rows), record)
    {
      rows := Without(rows, record.id);
      rows := rows + [record];
    }
  }

  /** A record is revoked exactly when somebody revoked the link. */
  lemma RevocationTold(v: Verifier, link: Link, h: seq<Event>)
    requires Tells(v, link, h)
    ensures link.revokedAt.None? <==> forall i :: 0 <= i < |h| ==> h[i].Attempt?
  {
    RevokedAtMeans(h);
  }

  /** A match in a prefix of the table is the match in the table. */
  lemma {:induction false} FirstStays(rows: seq<Link>, n: nat, credential: string)
    requires n <= |rows| && WithCredential(rows[..n], credential).Some?
    ensures WithCredential(rows, credential) == WithCredential(rows[..n], credential)
  {
    if n < |rows| {
      assert Front(rows)[..n] == rows[..n];
      FirstStays(Front(rows), n, credential);
    } else {
      assert rows[..n] == rows;
    }
  }

  /** With a hasher that accepts what it hashed, a new link grants its own passcode until it expires. */
  lemma NewLinkGrants(verify: Verifier, hash: (string, string) -> string, link: Link, salt: string, passcode: string, now: int)
    requires forall s, p :: verify(hash(s, p), p)
    requires link == Created(link) && link.passcodeHash == Some(hash(salt, passcode)) && passcode != ""
    ensures Answer(verify, link, [], now, Some(passcode)) == Ok(link.videoId) <==> !ExpiredAt(link, now)
  {
  }
}
