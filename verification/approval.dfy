/** The signup-approval state machine, its approval rows and the audit log it can be replayed from. */
module Approvals {
  import opened Prelude
  import opened Text

  // ----- usernames -----

  predicate IsSlugStart(c: char) {
    'a' <= c <= 'z' || '0' <= c <= '9'
  }

  predicate IsSlugChar(c: char) {
    IsSlugStart(c) || c == '.' || c == '_' || c == '-'
  }

  predicate SlugBody(s: string) {
    0 < |s| <= 63 && IsSlugStart(s[0]) && forall i :: 0 < i < |s| ==> IsSlugChar(s[i])
  }

  /** The pattern's `$` also matches in front of a newline that ends the string. */
  predicate MatchesPattern(s: string) {
    SlugBody(s) || (s != "" && s[|s| - 1] == '\n' && SlugBody(s[..|s| - 1]))
  }

  predicate ValidSlug(s: string) {
    && s != "" && |s| <= 63
    && MatchesPattern(s)
    && s[0] != '.' && s[0] != '-' && s[|s| - 1] != '.' && s[|s| - 1] != '-'
  }

  /** Lower-case ASCII letters and digits, by their codes. */
  predicate LetterOrDigit(c: char) {
    0x61 <= c as int <= 0x7A || 0x30 <= c as int <= 0x39
  }

  /** A letter or digit, then up to 62 letters, digits, dots, underscores and hyphens. */
  predicate PolicyBody(s: string) {
    && 1 <= |s| <= 63 && LetterOrDigit(s[0])
    && forall i :: 0 <= i < |s| ==> LetterOrDigit(s[i]) || s[i] == '.' || s[i] == '_' || s[i] == '-'
  }

  /** The policy as documented. */
  predicate DocumentedSlug(s: string) {
    PolicyBody(s) && s[|s| - 1] != '.' && s[|s| - 1] != '-'
  }

  lemma BodyIsPolicy(s: string)
    ensures SlugBody(s) <==> PolicyBody(s)
  {
    if PolicyBody(s) {
      forall i | 0 < i < |s| ensures IsSlugChar(s[i]) {}
    }
  }

  /** What is accepted beyond the policy: one newline behind a body, which may then end in a dot or a hyphen. */
  lemma ValidSlugIff(s: string)
    ensures ValidSlug(s) <==>
              DocumentedSlug(s) || (s != "" && |s| <= 63 && s[|s| - 1] == '\n' && PolicyBody(s[..|s| - 1]))
  {
    BodyIsPolicy(s);
    if s != "" {
      BodyIsPolicy(s[..|s| - 1]);
    }
  }

  // ----- the tables -----

  type UserId = nat

  datatype Status = Pending | Approved | Denied | Banned

  datatype User = User(username: string, email: string, isAdmin: bool, status: Status, approvedAt: Option<nat>,
                       approvedBy: Option<UserId>)

  datatype Approval = Approval(user: UserId, decision: Status, decidedBy: Option<UserId>, reason: Option<string>)

  datatype Action = Signup | Approve | Deny | Ban | Unban

  datatype Entry = Entry(actor: Option<UserId>, action: Action, target: UserId, detail: Option<string>)

  datatype Failure = Invalid | Taken | NotFound | Forbidden | WrongStatus

  // ----- replaying the log -----

  datatype Standing = Standing(status: Status, approvedBy: Option<UserId>)

  function Outcome(e: Entry, requireApproval: bool): Standing {
    match e.action
    case Signup => Standing(if requireApproval then Pending else Approved, None)
    case Approve => Standing(Approved, e.actor)
    case Deny => Standing(Denied, None)
    case Ban => Standing(Banned, None)
    case Unban => Standing(Approved, e.actor)
  }

  /** Where the log leaves a user, starting from the users that were there before it. */
  function Replay(base: seq<Standing>, audit: seq<Entry>, requireApproval: bool, user: UserId): Option<Standing> {
    if audit == [] then if user < |base| then Some(base[user]) else None
    else
      var last := audit[|audit| - 1];
      if last.target == user then Some(Outcome(last, requireApproval))
      else Replay(base, audit[..|audit| - 1], requireApproval, user)
  }

  /** The arrows of the state machine. */
  predicate Legal(before: Option<Standing>, action: Action) {
    match action
    case Signup => before.None?
    case Approve => before.Some? && before.value.status == Pending
    case Deny => before.Some? && before.value.status == Pending
    case Ban => before.Some? && before.value.status != Banned
    case Unban => before.Some? && before.value.status == Banned
  }

  ghost predicate LegalTrail(base: seq<Standing>, audit: seq<Entry>, requireApproval: bool) {
    forall i :: 0 <= i < |audit| ==>
                  Legal(Replay(base, audit[..i], requireApproval, audit[i].target), audit[i].action)
  }

  /** The last decision the log records for a user; bans and their lifting leave it as it was. */
  function LastDecision(audit: seq<Entry>, requireApproval: bool, user: UserId): (r: Option<Approval>)
    ensures r.Some? ==> r.value.user == user
  {
    if audit == [] then None
    else
      var earlier := LastDecision(audit[..|audit| - 1], requireApproval, user);
      var last := audit[|audit| - 1];
      if last.target != user then earlier
      else
        match last.action
        case Signup => if requireApproval then Some(Approval(user, Pending, None, None)) else earlier
        case Approve => Some(Approval(user, Approved, last.actor, None))
        case Deny => Some(Approval(user, Denied, last.actor, last.detail))
        case _ => earlier
  }

  lemma ReplaySnoc(base: seq<Standing>, audit: seq<Entry>, ra: bool, e: Entry, user: UserId)
    ensures Replay(base, audit + [e], ra, user) ==
            if e.target == user then Some(Outcome(e, ra)) else Replay(base, audit, ra, user)
    ensures LastDecision(audit + [e], ra, user) ==
            if e.target != user || e.action.Ban? || e.action.Unban? || (e.action.Signup? && !ra)
            then LastDecision(audit, ra, user)
            else Some(Approval(user, Outcome(e, ra).status, if e.action.Signup? then None else e.actor,
                               if e.action.Deny? then e.detail else None))
  {
    assert (audit + [e])[..|audit|] == audit;
  }

  lemma TrailSnoc(base: seq<Standing>, audit: seq<Entry>, ra: bool, e: Entry)
    requires LegalTrail(base, audit, ra) && Legal(Replay(base, audit, ra, e.target), e.action)
    ensures LegalTrail(base, audit + [e], ra)
  {
    var longer := audit + [e];
    forall i | 0 <= i < |longer| ensures Legal(Replay(base, longer[..i], ra, longer[i].target), longer[i].action) {
      assert longer[..i] == audit[..i];
      assert audit[..|audit|] == audit;
    }
  }

  // ----- the service -----

  ghost predicate Distinct(users: seq<User>) {
    forall i, j :: 0 <= i < j < |users| ==> users[i].username != users[j].username && users[i].email != users[j].email
  }

  ghost predicate InUse(users: seq<User>, username: string, email: string) {
    exists u :: 0 <= u < |users| && (users[u].username == username || users[u].email == email)
  }

  /** An approval time exactly for approved users, an approver only for them. */
  ghost predicate ApprovedOk(u: User) {
    (u.approvedAt.Some? <==> u.status == Approved) && (u.approvedBy.Some? ==> u.status == Approved)
  }

  ghost predicate OneRowEach(approvals: seq<Approval>) {
    forall i, j :: 0 <= i < j < |approvals| ==> approvals[i].user != approvals[j].user
  }

  function StandingOf(u: User): Standing {
    Standing(u.status, u.approvedBy)
  }

  /** Every row belongs to a user and is the last decision of the log, or was there before it. */
  ghost predicate RowsMatch(rows: seq<Approval>, before: seq<Approval>, audit: seq<Entry>, ra: bool, users: nat) {
    && (forall a :: a in rows ==> a.user < users)
    && (forall a :: a in rows ==> LastDecision(audit, ra, a.user) == Some(a)
                                  || (LastDecision(audit, ra, a.user) == None && a in before))
    && (forall u: nat :: LastDecision(audit, ra, u).Some? ==> LastDecision(audit, ra, u).value in rows)
  }

  ghost predicate Replays(base: seq<Standing>, audit: seq<Entry>, ra: bool, users: seq<User>) {
    && (forall u: nat :: u < |users| ==> Replay(base, audit, ra, u) == Some(StandingOf(users[u])))
    && (forall u: nat :: u >= |users| ==> Replay(base, audit, ra, u) == None)
  }

  /** The admins are who they were when the log begins, and nobody ever banned one of them. */
  ghost predicate RolesKept(admins: set<UserId>, users: seq<User>, audit: seq<Entry>) {
    && (forall u: nat :: u in admins ==> u < |users|)
    && (forall u: nat :: u < |users| ==> (users[u].isAdmin <==> u in admins))
    && (forall e :: e in audit && e.action.Ban? ==> e.target !in admins)
  }

  /** What holds of the three tables between any two operations. */
  ghost predicate Consistent(base: seq<Standing>, baseRows: seq<Approval>, admins: set<UserId>, ra: bool,
                             users: seq<User>, rows: seq<Approval>, audit: seq<Entry>)
  {
    && RolesKept(admins, users, audit)
    && Distinct(users)
    && (forall u :: 0 <= u < |users| ==> ApprovedOk(users[u]))
    && OneRowEach(rows)
    && RowsMatch(rows, baseRows, audit, ra, |users|)
    && Replays(base, audit, ra, users)
    && LegalTrail(base, audit, ra)
  }

  /** Replacing the row of one user, or adding it. */
  ghost predicate RowSet(before: seq<Approval>, after: seq<Approval>, row: Approval) {
    && OneRowEach(after)
    && forall a :: a in after <==> a == row || (a in before && a.user != row.user)
  }

  class SignupService {
    const requireApproval: bool
    /** Where the users stood, which approval rows there were and who was an admin, when the log begins. */
    ghost const base: seq<Standing>
    ghost const baseRows: seq<Approval>
    ghost const admins: set<UserId>
    var users: seq<User>
    var approvals: seq<Approval>
    var audit: seq<Entry>

    ghost predicate Valid()
      reads this
    {
      Consistent(base, baseRows, admins, requireApproval, users, approvals, audit)
    }

    constructor (requireApproval: bool, users: seq<User>, approvals: seq<Approval>)
      requires Distinct(users) && forall u :: 0 <= u < |users| ==> ApprovedOk(users[u])
      requires OneRowEach(approvals) && forall a :: a in approvals ==> a.user < |users|
      ensures Valid() && this.requireApproval == requireApproval
      ensures this.users == users && this.approvals == baseRows == approvals && audit == []
      ensures |base| == |users| && forall u :: 0 <= u < |users| ==> base[u] == StandingOf(users[u])
      ensures forall u: nat :: u in admins <==> u < |users| && users[u].isAdmin
    {
      this.requireApproval, this.users, this.approvals, this.audit := requireApproval, users, approvals, [];
      this.base := seq(|users|, i requires 0 <= i < |users| => StandingOf(users[i]));
      this.baseRows := approvals;
      this.admins := set u: nat | u < |users| && users[u].isAdmin;
    }

    method FindUser(username: string) returns (r: Option<UserId>)
      ensures r.Some? ==> r.value < |users| && users[r.value].username == username
      ensures r.None? ==> forall u :: 0 <= u < |users| ==> users[u].username != username
    {
      for i := 0 to |users|
        invariant forall u :: 0 <= u < i ==> users[u].username != username
      {
        if users[i].username == username {
          return Some(i);
        }
      }
      r := None;
    }

    method EmailTaken(email: string) returns (taken: bool)
      ensures taken <==> exists u :: 0 <= u < |users| && users[u].email == email
    {
      for i := 0 to |users|
        invariant forall u :: 0 <= u < i ==> users[u].email != email
      {
        if users[i].email == email {
          return true;
        }
      }
      taken := false;
    }

    /** Writes the decision on the user's row, making the row if it is missing. */
    method Decide(row: Approval)
      requires OneRowEach(approvals)
      modifies `approvals
      ensures RowSet(old(approvals), approvals, row)
    {
      for i := 0 to |approvals|
        invariant approvals == old(approvals) && forall j :: 0 <= j < i ==> approvals[j].user != row.user
      {
        if approvals[i].user == row.user {
          approvals := approvals[i := row];
          RowReplaced(old(approvals), i, row);
          return;
        }
      }
      approvals := approvals + [row];
      RowAdded(old(approvals), row);
    }

    /** Addresses are stripped and then lower-cased, by whatever the interpreter takes lower case to be. */
    method RegisterUser(username: string, email: string, lower: string -> string, now: nat)
      returns (r: Result<UserId, Failure>)
      requires Valid()
      modifies this
      ensures Valid()
      ensures r.Err? ==> users == old(users) && approvals == old(approvals) && audit == old(audit)
      ensures var normal := lower(Strip(email));
              && (r == Err(Invalid) <==> !ValidSlug(username))
              && (r == Err(Taken) <==> ValidSlug(username) && InUse(old(users), username, normal))
              && (r.Ok? ==> r.value == |old(users)| && audit == old(audit) + [Entry(None, Signup, r.value, None)]
                            && users == old(users) + [User(username, normal, false,
                                                           if requireApproval then Pending else Approved,
                                                           if requireApproval then None else Some(now), None)]
                            && if requireApproval
                               then RowSet(old(approvals), approvals, Approval(r.value, Pending, None, None))
                               else approvals == old(approvals))
      ensures r.Err? ==> r.error == Invalid || r.error == Taken
    {
      if !ValidSlug(username) {
        return Err(Invalid);
      }
      var normal := lower(Strip(email));
      var existing := FindUser(username);
      if existing.Some? {
        return Err(Taken);
      }
      var taken := EmailTaken(normal);
      if taken {
        return Err(Taken);
      }
      r := Ok(|users|);
      AddUser(NewUser(username, normal, requireApproval, now));
    }

    /** The rows of a new user: the user, a pending decision if one is needed, and the log entry. */
    method AddUser(user: User)
      requires Valid() && !InUse(users, user.username, user.email)
      requires !user.isAdmin && ApprovedOk(user)
      requires StandingOf(user) == Outcome(Entry(None, Signup, |users|, None), requireApproval)
      modifies this
      ensures Valid() && users == old(users) + [user]
      ensures audit == old(audit) + [Entry(None, Signup, |old(users)|, None)]
      ensures if requireApproval then RowSet(old(approvals), approvals, Approval(|old(users)|, Pending, None, None))
              else approvals == old(approvals)
    {
      var id := |users|;
      var e := Entry(None, Signup, id, None);
      if requireApproval {
        Decide(Approval(id, Pending, None, None));
      }
      users := users + [user];
      audit := audit + [e];
      Joined(base, baseRows, admins, requireApproval, old(users), users, old(approvals), approvals, old(audit), e);
    }

    method ApproveUser(username: string, admin: UserId, now: nat) returns (r: Result<UserId, Failure>)
      requires Valid()
      modifies this
      ensures Valid()
      ensures r.Err? ==> users == old(users) && approvals == old(approvals) && audit == old(audit)
      ensures r == Err(NotFound) <==> forall u :: 0 <= u < |old(users)| ==> old(users)[u].username != username
      ensures forall u :: 0 <= u < |old(users)| && old(users)[u].username == username ==>
                            r == if old(users)[u].status != Pending then Err(WrongStatus) else Ok(u)
      ensures r.Ok? ==> && r.value < |old(users)|
                        && users == old(users)[r.value := old(users)[r.value].(status := Approved,
                                                                               approvedAt := Some(now),
                                                                               approvedBy := Some(admin))]
                        && audit == old(audit) + [Entry(Some(admin), Approve, r.value, None)]
                        && RowSet(old(approvals), approvals, Approval(r.value, Approved, Some(admin), None))
    {
      var found := FindUser(username);
      if found.None? {
        return Err(NotFound);
      }
      var id := found.value;
      if users[id].status != Pending {
        return Err(WrongStatus);
      }
      var e := Entry(Some(admin), Approve, id, None);
      users := users[id := users[id].(status := Approved, approvedAt := Some(now), approvedBy := Some(admin))];
      Decide(Approval(id, Approved, Some(admin), None));
      audit := audit + [e];
      Moved(base, baseRows, admins, requireApproval, old(users), users, old(approvals), approvals, old(audit), e);
      r := Ok(id);
    }

    method DenyUser(username: string, admin: UserId, reason: Option<string>) returns (r: Result<UserId, Failure>)
      requires Valid()
      modifies this
      ensures Valid()
      ensures r.Err? ==> users == old(users) && approvals == old(approvals) && audit == old(audit)
      ensures r == Err(NotFound) <==> forall u :: 0 <= u < |old(users)| ==> old(users)[u].username != username
      ensures forall u :: 0 <= u < |old(users)| && old(users)[u].username == username ==>
                            r == if old(users)[u].status != Pending then Err(WrongStatus) else Ok(u)
      ensures r.Ok? ==> && r.value < |old(users)|
                        && users == old(users)[r.value := old(users)[r.value].(status := Denied, approvedAt := None,
                                                                               approvedBy := None)]
                        && audit == old(audit) + [Entry(Some(admin), Deny, r.value, reason)]
                        && RowSet(old(approvals), approvals, Approval(r.value, Denied, Some(admin), reason))
    {
      var found := FindUser(username);
      if found.None? {
        return Err(NotFound);
      }
      var id := found.value;
      if users[id].status != Pending {
        return Err(WrongStatus);
      }
      var e := Entry(Some(admin), Deny, id, reason);
      users := users[id := users[id].(status := Denied, approvedAt := None, approvedBy := None)];
      Decide(Approval(id, Denied, Some(admin), reason));
      audit := audit + [e];
      Moved(base, baseRows, admins, requireApproval, old(users), users, old(approvals), approvals, old(audit), e);
      r := Ok(id);
    }

    method BanUser(username: string, admin: UserId, adminName: string, reason: Option<string>)
      returns (r: Result<UserId, Failure>)
      requires Valid()
      modifies `users, `audit
      ensures Valid()
      ensures r.Err? ==> users == old(users) && audit == old(audit)
      ensures r == Err(NotFound) <==> forall u :: 0 <= u < |old(users)| ==> old(users)[u].username != username
      ensures forall u :: 0 <= u < |old(users)| && old(users)[u].username == username ==>
                            r == if username == adminName || old(users)[u].isAdmin then Err(Forbidden)
                                 else if old(users)[u].status == Banned then Err(WrongStatus) else Ok(u)
      ensures r.Ok? ==> && r.value < |old(users)|
                        && users == old(users)[r.value := old(users)[r.value].(status := Banned, approvedAt := None,
                                                                               approvedBy := None)]
                        && audit == old(audit) + [Entry(Some(admin), Ban, r.value, reason)]
    {
      var found := FindUser(username);
      if found.None? {
        return Err(NotFound);
      }
      var id := found.value;
      if users[id].username == adminName {
        return Err(Forbidden);
      }
      if users[id].isAdmin {
        return Err(Forbidden);
      }
      if users[id].status == Banned {
        return Err(WrongStatus);
      }
      var e := Entry(Some(admin), Ban, id, reason);
      users := users[id := users[id].(status := Banned, approvedAt := None, approvedBy := None)];
      audit := audit + [e];
      Moved(base, baseRows, admins, requireApproval, old(users), users, approvals, approvals, old(audit), e);
      r := Ok(id);
    }

    method UnbanUser(username: string, admin: UserId, now: nat) returns (r: Result<UserId, Failure>)
      requires Valid()
      modifies `users, `audit
      ensures Valid()
      ensures r.Err? ==> users == old(users) && audit == old(audit)
      ensures r == Err(NotFound) <==> forall u :: 0 <= u < |old(users)| ==> old(users)[u].username != username
      ensures forall u :: 0 <= u < |old(users)| && old(users)[u].username == username ==>
                            r == if old(users)[u].status != Banned then Err(WrongStatus) else Ok(u)
      ensures r.Ok? ==> && r.value < |old(users)|
                        && users == old(users)[r.value := old(users)[r.value].(status := Approved,
                                                                               approvedAt := Some(now),
                                                                               approvedBy := Some(admin))]
                        && audit == old(audit) + [Entry(Some(admin), Unban, r.value, None)]
    {
      var found := FindUser(username);
      if found.None? {
        return Err(NotFound);
      }
      var id := found.value;
      if users[id].status != Banned {
        return Err(WrongStatus);
      }
      var e := Entry(Some(admin), Unban, id, None);
      users := users[id := users[id].(status := Approved, approvedAt := Some(now), approvedBy := Some(admin))];
      audit := audit + [e];
      Moved(base, baseRows, admins, requireApproval, old(users), users, approvals, approvals, old(audit), e);
      r := Ok(id);
    }
  }

  /** A user who is there already moves along one arrow. */
  lemma Moved(base: seq<Standing>, baseRows: seq<Approval>, admins: set<UserId>, ra: bool, users: seq<User>,
              users': seq<User>, rows: seq<Approval>, rows': seq<Approval>, audit: seq<Entry>, e: Entry)
    requires Consistent(base, baseRows, admins, ra, users, rows, audit) && e.target < |users|
    requires |users'| == |users| && users' == users[e.target := users'[e.target]]
    requires users'[e.target].username == users[e.target].username && users'[e.target].email == users[e.target].email
    requires users'[e.target].isAdmin == users[e.target].isAdmin
    requires e.action.Ban? ==> !users[e.target].isAdmin
    requires ApprovedOk(users'[e.target]) && StandingOf(users'[e.target]) == Outcome(e, ra)
    requires Legal(Some(StandingOf(users[e.target])), e.action)
    requires if e.action.Ban? || e.action.Unban? then rows' == rows
             else RowSet(rows, rows', Approval(e.target, Outcome(e, ra).status, e.actor,
                                               if e.action.Deny? then e.detail else None))
    ensures Consistent(base, baseRows, admins, ra, users', rows', audit + [e])
  {
    Logged(base, audit, ra, e, users, users');
    RowsLogged(rows, rows', baseRows, audit, ra, e, |users|, |users|);
  }

  /** A new user joins. */
  lemma Joined(base: seq<Standing>, baseRows: seq<Approval>, admins: set<UserId>, ra: bool, users: seq<User>,
               users': seq<User>, rows: seq<Approval>, rows': seq<Approval>, audit: seq<Entry>, e: Entry)
    requires Consistent(base, baseRows, admins, ra, users, rows, audit) && e == Entry(None, Signup, |users|, None)
    requires |users'| == |users| + 1 && users'[..|users|] == users
    requires forall u :: 0 <= u < |users| ==> users[u].username != users'[|users|].username
                                              && users[u].email != users'[|users|].email
    requires !users'[|users|].isAdmin
    requires ApprovedOk(users'[|users|]) && StandingOf(users'[|users|]) == Outcome(e, ra)
    requires if ra then RowSet(rows, rows', Approval(|users|, Pending, None, None)) else rows' == rows
    ensures Consistent(base, baseRows, admins, ra, users', rows', audit + [e])
  {
    forall u | 0 <= u < |users| ensures users'[u] == users[u] {
      assert users'[..|users|][u] == users'[u];
    }
    Logged(base, audit, ra, e, users, users');
    RowsLogged(rows, rows', baseRows, audit, ra, e, |users|, |users'|);
  }

  lemma TrailPrefix(base: seq<Standing>, audit: seq<Entry>, e: Entry, ra: bool)
    requires LegalTrail(base, audit + [e], ra)
    ensures LegalTrail(base, audit, ra) && Legal(Replay(base, audit, ra, e.target), e.action)
  {
    var all := audit + [e];
    forall i | 0 <= i < |audit| ensures Legal(Replay(base, audit[..i], ra, audit[i].target), audit[i].action) {
      assert audit[..i] == all[..i] && audit[i] == all[i];
    }
    assert all[..|audit|] == audit && all[|audit|] == e;
  }

  /** An admin who is banned was so when the log began. */
  lemma AdminsAreNotBanned(base: seq<Standing>, baseRows: seq<Approval>, admins: set<UserId>, ra: bool,
                           users: seq<User>, rows: seq<Approval>, audit: seq<Entry>, user: UserId)
    requires Consistent(base, baseRows, admins, ra, users, rows, audit)
    requires user < |users| && users[user].isAdmin && users[user].status == Banned
    ensures user < |base| && base[user].status == Banned
  {
    BannedBy(base, audit, ra, user);
  }

  lemma {:induction false} BannedBy(base: seq<Standing>, audit: seq<Entry>, ra: bool, user: UserId)
    requires Replay(base, audit, ra, user).Some? && Replay(base, audit, ra, user).value.status == Banned
    requires forall e :: e in audit && e.action.Ban? ==> e.target != user
    ensures user < |base| && base[user].status == Banned
  {
    if audit != [] {
      assert audit[|audit| - 1] in audit;
      BannedBy(base, audit[..|audit| - 1], ra, user);
    }
  }

  /** A banned user can only come back as approved, by an unban, whatever the approval row says. */
  lemma {:induction false} BannedUntilUnbanned(base: seq<Standing>, audit: seq<Entry>, more: seq<Entry>, ra: bool,
                                               user: UserId)
    requires LegalTrail(base, audit + more, ra)
    requires Replay(base, audit, ra, user).Some? && Replay(base, audit, ra, user).value.status == Banned
    requires forall e :: e in more && e.target == user ==> e.action != Unban
    ensures Replay(base, audit + more, ra, user) == Replay(base, audit, ra, user)
    ensures forall e :: e in more ==> e.target != user
  {
    if more == [] {
      assert audit + more == audit;
    } else {
      var init, last := more[..|more| - 1], more[|more| - 1];
      AppendLast(audit, more);
      TrailPrefix(base, audit + init, last, ra);
      BannedUntilUnbanned(base, audit, init, ra, user);
      ReplaySnoc(base, audit + init, ra, last, user);
      assert last in more;
    }
  }

  function NewUser(username: string, email: string, requireApproval: bool, now: nat): User {
    if requireApproval then User(username, email, false, Pending, None, None)
    else User(username, email, false, Approved, Some(now), None)
  }

  lemma RowReplaced(rows: seq<Approval>, i: nat, row: Approval)
    requires OneRowEach(rows) && i < |rows| && rows[i].user == row.user
    ensures RowSet(rows, rows[i := row], row)
  {
    var after := rows[i := row];
    forall a ensures a in after <==> a == row || (a in rows && a.user != row.user) {
      if a in after && a != row {
        var j :| 0 <= j < |after| && after[j] == a;
        assert rows[j] == a;
      }
      if a in rows && a.user != row.user {
        var j :| 0 <= j < |rows| && rows[j] == a;
        assert after[j] == a;
      }
      assert after[i] == row;
    }
  }

  lemma RowAdded(rows: seq<Approval>, row: Approval)
    requires OneRowEach(rows) && forall j :: 0 <= j < |rows| ==> rows[j].user != row.user
    ensures RowSet(rows, rows + [row], row)
  {
  }

  /** One legal entry more, and the user it is about now stands where the entry leaves it. */
  lemma Logged(base: seq<Standing>, audit: seq<Entry>, ra: bool, e: Entry, before: seq<User>, after: seq<User>)
    requires Replays(base, audit, ra, before) && LegalTrail(base, audit, ra)
    requires |before| <= |after| && e.target < |after| <= |before| + 1
    requires forall u :: 0 <= u < |after| && u != e.target ==> u < |before| && after[u] == before[u]
    requires StandingOf(after[e.target]) == Outcome(e, ra)
    requires Legal(if e.target < |before| then Some(StandingOf(before[e.target])) else None, e.action)
    ensures Replays(base, audit + [e], ra, after) && LegalTrail(base, audit + [e], ra)
  {
    TrailSnoc(base, audit, ra, e);
    forall u: nat ensures u < |after| ==> Replay(base, audit + [e], ra, u) == Some(StandingOf(after[u])) {
      ReplaySnoc(base, audit, ra, e, u);
    }
    forall u: nat ensures u >= |after| ==> Replay(base, audit + [e], ra, u) == None {
      ReplaySnoc(base, audit, ra, e, u);
    }
  }

  lemma RowsLogged(before: seq<Approval>, after: seq<Approval>, baseRows: seq<Approval>, audit: seq<Entry>, ra: bool,
                   e: Entry, users: nat, users': nat)
    requires RowsMatch(before, baseRows, audit, ra, users) && users <= users' && e.target < users'
    requires if e.action.Ban? || e.action.Unban? || (e.action.Signup? && !ra) then after == before
             else RowSet(before, after, Approval(e.target, Outcome(e, ra).status,
                                                 if e.action.Signup? then None else e.actor,
                                                 if e.action.Deny? then e.detail else None))
    ensures RowsMatch(after, baseRows, audit + [e], ra, users')
  {
    forall u: nat ensures LastDecision(audit + [e], ra, u) ==
            if e.target != u || e.action.Ban? || e.action.Unban? || (e.action.Signup? && !ra)
            then LastDecision(audit, ra, u)
            else Some(Approval(u, Outcome(e, ra).status, if e.action.Signup? then None else e.actor,
                               if e.action.Deny? then e.detail else None))
    {
      ReplaySnoc([], audit, ra, e, u);
    }
  }
}
