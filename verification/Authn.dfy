/** Answering token reviews from Keystone or from a cache of its earlier answers. */
module Authn {
  import opened Options
  import opened ExpireCache

  datatype User = User(username: string, uid: string, groups: seq<string>)
  datatype Status = Status(authenticated: bool, user: Option<User>)
  datatype Token = Token(userName: string, userID: string, roles: seq<string>)

  /** What Keystone says: a token with or without its groups, a 401, or any other failure. */
  datatype Answer = Granted(token: Token, groups: Option<seq<string>>) | Unauthorized | OtherFailure

  datatype Request = Credentials(username: string, password: string) | TokenID(id: string)

  /** An ideal password hash: it matches the password it was made from and no other. */
  datatype Hash = Hash(of: string)

  datatype Value = CredentialsEntry(hashed: Hash, status: Status) | TokenEntry(status: Status)

  datatype Settings = Settings(mapping: map<string, string>, authTTL: int, unauthTTL: int, capacity: nat)

  /** Usernames and token ids share one key space. */
  function Key(r: Request): string {
    match r
    case Credentials(u, _) => u
    case TokenID(id) => id
  }

  /** One group per role; a role without a mapping yields the empty name. */
  function MappedGroups(mapping: map<string, string>, roles: seq<string>): seq<string> {
    seq(|roles|, i requires 0 <= i < |roles| => if roles[i] in mapping then mapping[roles[i]] else "")
  }

  /** The reply that Keystone's answer calls for. */
  function StatusFor(s: Settings, a: Answer): Status {
    match a
    case Granted(token, groups) =>
      Status(true, Some(User(token.userName, token.userID,
                             MappedGroups(s.mapping, token.roles) + if groups.Some? then groups.value else [])))
    case _ => Status(false, None)
  }

  /** The groups of a user: one for each role, empty for a role that is not mapped, and then those of Keystone. */
  ghost predicate GroupsAre(mapping: map<string, string>, roles: seq<string>, more: seq<string>, groups: seq<string>) {
    && |groups| == |roles| + |more|
    && (forall i :: 0 <= i < |roles| ==> groups[i] == if roles[i] in mapping then mapping[roles[i]] else "")
    && (forall i :: 0 <= i < |more| ==> groups[|roles| + i] == more[i])
  }

  /** The reply says of the user what Keystone's answer says, and nothing of a user it did not grant. */
  ghost predicate Conveys(s: Settings, a: Answer, status: Status) {
    match a
    case Granted(token, groups) =>
      && status.authenticated && status.user.Some?
      && status.user.value.username == token.userName && status.user.value.uid == token.userID
      && GroupsAre(s.mapping, token.roles, if groups.Some? then groups.value else [], status.user.value.groups)
    case _ => !status.authenticated && status.user.None?
  }

  lemma StatusForConveys(s: Settings, a: Answer)
    ensures Conveys(s, a, StatusFor(s, a))
  {
  }

  function TtlFor(s: Settings, a: Answer): int {
    if a.Granted? then s.authTTL else s.unauthTTL
  }

  function ValueFor(s: Settings, r: Request, a: Answer): Value {
    match r
    case Credentials(_, p) => CredentialsEntry(Hash(p), StatusFor(s, a))
    case TokenID(_) => TokenEntry(StatusFor(s, a))
  }

  /** Whether a cached value may answer the request: the right kind and, for credentials, the right password. */
  predicate Accepts(r: Request, v: Value) {
    match r
    case Credentials(_, p) => v.CredentialsEntry? && v.hashed == Hash(p)
    case TokenID(_) => v.TokenEntry?
  }

  // ---- The machine ----------------------------------------------------------------------

  datatype Task =
    | Reading(request: Request)
    | Calling(request: Request)
    | Caching(request: Request, value: Value, ttl: int, answeredAt: nat)  // where in the log the answer is
    | Adding

  datatype Note =
    | Asked(request: Request, answer: Answer, time: int)
    | Cached(request: Request, answeredAt: nat, time: int)
    | Replied(request: Request, status: Status, time: int, direct: bool)

  datatype AuthState = AuthState(cache: CacheState<string, Value>, tasks: map<nat, Task>, log: seq<Note>)

  datatype AuthMove =
    | Clock(elapsed: nat)
    | Arrive(task: nat, request: Request)
    | Check(task: nat)
    | Purge(task: nat)
    | Ask(task: nat, answer: Answer, hashOk: bool)
    | Stamp(task: nat)
    | Store(task: nat)
    | SetTimer(task: nat)
    | Expire(timer: Timer<string>)

  /** One atomic step of one request, of a timer or of the clock; an impossible one changes nothing. */
  function Advance(cfg: Settings, s: AuthState, m: AuthMove): AuthState {
    match m
    case Clock(d) => s.(cache := Next(s.cache, cfg.capacity, Tick(d)))
    case Expire(timer) => s.(cache := Next(s.cache, cfg.capacity, Fire(timer)))
    case Arrive(t, r) =>
      if t in s.tasks || t in s.cache.pending then s
      else
        var c := Next(s.cache, cfg.capacity, GetLookup(t, Key(r)));
        s.(cache := c, tasks := s.tasks[t := if t in c.pending then Reading(r) else Calling(r)])
    case Check(t) =>
      if t !in s.tasks || !s.tasks[t].Reading? || t !in s.cache.pending || !s.cache.pending[t].Found? then s
      else
        var r, e := s.tasks[t].request, s.cache.pending[t].entry;
        var c := Next(s.cache, cfg.capacity, GetCheck(t));
        if s.cache.now > e.expires then s.(cache := c)
        else if Accepts(r, e.value) then
          s.(cache := c, tasks := s.tasks - {t}, log := s.log + [Replied(r, e.value.status, s.cache.now, false)])
        else s.(cache := c, tasks := s.tasks[t := Calling(r)])
    case Purge(t) =>
      if t !in s.tasks || !s.tasks[t].Reading? || t !in s.cache.pending || !s.cache.pending[t].Stale? then s
      else s.(cache := Next(s.cache, cfg.capacity, GetRemove(t)), tasks := s.tasks[t := Calling(s.tasks[t].request)])
    case Ask(t, a, hashOk) =>
      if t !in s.tasks || !s.tasks[t].Calling? then s
      else
        var r := s.tasks[t].request;
        var log := s.log + [Asked(r, a, s.cache.now), Replied(r, StatusFor(cfg, a), s.cache.now, true)];
        if a.OtherFailure? || (r.Credentials? && !hashOk) then s.(tasks := s.tasks - {t}, log := log)
        else s.(tasks := s.tasks[t := Caching(r, ValueFor(cfg, r, a), TtlFor(cfg, a), |s.log|)], log := log)
    case Stamp(t) =>
      if t !in s.tasks || !s.tasks[t].Caching? || t in s.cache.pending then s
      else
        var task := s.tasks[t];
        s.(cache := Next(s.cache, cfg.capacity, AddStamp(t, Key(task.request), task.value, task.ttl)),
           tasks := s.tasks[t := Adding],
           log := s.log + [Cached(task.request, task.answeredAt, s.cache.now)])
    case Store(t) =>
      if t !in s.tasks || !s.tasks[t].Adding? then s
      else s.(cache := Next(s.cache, cfg.capacity, AddStore(t)))
    case SetTimer(t) =>
      if t !in s.tasks || !s.tasks[t].Adding? || t !in s.cache.pending || !s.cache.pending[t].Stored? then s
      else s.(cache := Next(s.cache, cfg.capacity, AddTimer(t)), tasks := s.tasks - {t})
  }

  function Serve(cfg: Settings, start: int, moves: seq<AuthMove>): AuthState {
    if moves == [] then AuthState(Empty(start), map[], [])
    else Advance(cfg, Serve(cfg, start, moves[..|moves| - 1]), moves[|moves| - 1])
  }

  // ---- Every reply is backed ------------------------------------------------------------

  /** Note `i` is Keystone's answer to `r`, good for caching, given no later than `now`. */
  ghost predicate AnswerAt(log: seq<Note>, i: nat, r: Request, now: int) {
    i < |log| && log[i].Asked? && log[i].request == r && !log[i].answer.OtherFailure? && log[i].time <= now
  }

  /** Note `j` is the caching of an answer to `r` given before. */
  ghost predicate CachedAt(log: seq<Note>, j: nat, r: Request, now: int) {
    && j < |log| && log[j].Cached? && log[j].request == r && log[j].answeredAt < j && log[j].time <= now
    && AnswerAt(log, log[j].answeredAt, r, log[j].time)
  }

  /** The entry holds the reply to a cached answer, and expires that answer's ttl after the caching. */
  ghost predicate BackedBy(cfg: Settings, log: seq<Note>, now: int, k: string, e: Entry<Value>, j: nat, r: Request) {
    && Key(r) == k && CachedAt(log, j, r, now)
    && var answer := log[log[j].answeredAt].answer;
       e.value == ValueFor(cfg, r, answer) && e.expires == log[j].time + TtlFor(cfg, answer)
  }

  ghost predicate Backed(cfg: Settings, log: seq<Note>, now: int, k: string, e: Entry<Value>) {
    exists j: nat, r: Request :: BackedBy(cfg, log, now, k, e, j, r)
  }

  /** A task about to cache holds what Keystone answered. */
  ghost predicate Prepared(cfg: Settings, log: seq<Note>, now: int, task: Task)
    requires task.Caching?
  {
    && AnswerAt(log, task.answeredAt, task.request, now)
    && task.value == ValueFor(cfg, task.request, log[task.answeredAt].answer)
    && task.ttl == TtlFor(cfg, log[task.answeredAt].answer)
  }

  /** A reply straight from Keystone agrees with the answer noted just before it. */
  ghost predicate Direct(cfg: Settings, log: seq<Note>, p: nat)
    requires p < |log| && log[p].Replied?
  {
    && 0 < p && log[p - 1].Asked? && log[p - 1].request == log[p].request && log[p - 1].time == log[p].time
    && log[p].status == StatusFor(cfg, log[p - 1].answer)
  }

  /** A cached reply agrees with an answer to the same request whose caching is noted at most its ttl before. */
  ghost predicate FromCachingAt(cfg: Settings, log: seq<Note>, p: nat, j: nat)
    requires p < |log| && log[p].Replied?
  {
    && j < p && CachedAt(log, j, log[p].request, log[p].time)
    && var answer := log[log[j].answeredAt].answer;
       log[p].status == StatusFor(cfg, answer) && log[p].time <= log[j].time + TtlFor(cfg, answer)
  }

  ghost predicate ReplyBacked(cfg: Settings, log: seq<Note>, p: nat)
    requires p < |log| && log[p].Replied?
  {
    if log[p].direct then Direct(cfg, log, p) else exists j: nat :: FromCachingAt(cfg, log, p, j)
  }

  ghost predicate CacheBacked(cfg: Settings, s: AuthState) {
    && (forall x :: x in s.cache.lru ==> Backed(cfg, s.log, s.cache.now, x.key, x.entry))
    && (forall t :: t in s.cache.pending && (s.cache.pending[t].Found? || s.cache.pending[t].Stamped?) ==>
          Backed(cfg, s.log, s.cache.now, s.cache.pending[t].key, s.cache.pending[t].entry))
  }

  ghost predicate TasksBacked(cfg: Settings, s: AuthState) {
    && (forall t :: t in s.tasks && s.tasks[t].Reading? && t in s.cache.pending && s.cache.pending[t].Found? ==>
          s.cache.pending[t].key == Key(s.tasks[t].request))
    && (forall t :: t in s.tasks && s.tasks[t].Caching? ==> Prepared(cfg, s.log, s.cache.now, s.tasks[t]))
  }

  ghost predicate RepliesBacked(cfg: Settings, log: seq<Note>) {
    forall p :: 0 <= p < |log| && log[p].Replied? ==> ReplyBacked(cfg, log, p)
  }

  ghost predicate AuthInv(cfg: Settings, s: AuthState) {
    CacheBacked(cfg, s) && TasksBacked(cfg, s) && RepliesBacked(cfg, s.log)
  }

  /** What backs an entry keeps backing it while time passes and notes are added. */
  lemma BackedLater(cfg: Settings, log: seq<Note>, now: int, k: string, e: Entry<Value>, more: seq<Note>, later: int)
    requires Backed(cfg, log, now, k, e) && log <= more && now <= later
    ensures Backed(cfg, more, later, k, e)
  {
    var j: nat, r: Request :| BackedBy(cfg, log, now, k, e, j, r);
    assert BackedBy(cfg, more, later, k, e, j, r);
  }

  lemma CacheBackedLater(cfg: Settings, s: AuthState, more: seq<Note>)
    requires CacheBacked(cfg, s) && s.log <= more
    ensures CacheBacked(cfg, s.(log := more))
  {
    var c := s.cache;
    forall x | x in c.lru ensures Backed(cfg, more, c.now, x.key, x.entry) {
      BackedLater(cfg, s.log, c.now, x.key, x.entry, more, c.now);
    }
    forall t | t in c.pending && (c.pending[t].Found? || c.pending[t].Stamped?)
      ensures Backed(cfg, more, c.now, c.pending[t].key, c.pending[t].entry)
    {
      BackedLater(cfg, s.log, c.now, c.pending[t].key, c.pending[t].entry, more, c.now);
    }
  }

  /** No step of the cache makes up an entry; only a new stamp has to bring its own backing. */
  lemma CacheMoveBacked(cfg: Settings, s: AuthState, m: Move<string, Value>)
    requires CacheBacked(cfg, s)
    requires m.AddStamp? ==> Backed(cfg, s.log, s.cache.now, m.key, Entry(m.value, s.cache.now + m.ttl))
    ensures CacheBacked(cfg, s.(cache := Next(s.cache, cfg.capacity, m)))
  {
    var c, d := s.cache, Next(s.cache, cfg.capacity, m);
    forall x | x in d.lru ensures Backed(cfg, s.log, d.now, x.key, x.entry) {
      if x !in c.lru {
        OnlyStoresAdd(c, cfg.capacity, m, x);
      }
      BackedLater(cfg, s.log, c.now, x.key, x.entry, s.log, d.now);
    }
    forall t | t in d.pending && (d.pending[t].Found? || d.pending[t].Stamped?)
      ensures Backed(cfg, s.log, d.now, d.pending[t].key, d.pending[t].entry)
    {
      PendingOrigin(c, cfg.capacity, m, t);
      BackedLater(cfg, s.log, c.now, d.pending[t].key, d.pending[t].entry, s.log, d.now);
    }
  }

  /** An entry in a caller's hands was there before, came out of the cache, or was just stamped. */
  lemma PendingOrigin(c: CacheState<string, Value>, capacity: nat, m: Move<string, Value>, t: nat)
    requires var d := Next(c, capacity, m); t in d.pending && (d.pending[t].Found? || d.pending[t].Stamped?)
    ensures var p := Next(c, capacity, m).pending[t];
            || (t in c.pending && c.pending[t] == p)
            || (m.GetLookup? && Slot(p.key, p.entry) in c.lru)
            || (m.AddStamp? && p.key == m.key && p.entry == Entry(m.value, c.now + m.ttl))
  {
    hide Touch, Put, Remove;
  }

  lemma PreparedLater(cfg: Settings, log: seq<Note>, now: int, task: Task, more: seq<Note>, later: int)
    requires task.Caching? && Prepared(cfg, log, now, task) && log <= more && now <= later
    ensures Prepared(cfg, more, later, task)
  {
  }

  lemma RepliesLater(cfg: Settings, log: seq<Note>, n: Note)
    requires RepliesBacked(cfg, log)
    requires n.Replied? ==> ReplyBacked(cfg, log + [n], |log|)
    ensures RepliesBacked(cfg, log + [n])
  {
    var more := log + [n];
    forall p | 0 <= p < |more| && more[p].Replied? ensures ReplyBacked(cfg, more, p) {
      if p < |log| {
        assert ReplyBacked(cfg, log, p);
        if !log[p].direct {
          var j: nat :| FromCachingAt(cfg, log, p, j);
          assert FromCachingAt(cfg, more, p, j);
        }
      }
    }
  }

  /** Requests under way keep their backing when others move on. */
  lemma TasksBackedLater(cfg: Settings, s: AuthState, s': AuthState)
    requires TasksBacked(cfg, s) && s.log <= s'.log && s.cache.now <= s'.cache.now
    requires forall t :: t in s'.tasks && s'.tasks[t].Caching? ==>
               (t in s.tasks && s.tasks[t] == s'.tasks[t]) || Prepared(cfg, s'.log, s'.cache.now, s'.tasks[t])
    requires forall t :: t in s'.tasks && s'.tasks[t].Reading? && t in s'.cache.pending
                         && s'.cache.pending[t].Found? ==>
               || s'.cache.pending[t].key == Key(s'.tasks[t].request)
               || (t in s.tasks && s.tasks[t] == s'.tasks[t]
                   && t in s.cache.pending && s.cache.pending[t] == s'.cache.pending[t])
    ensures TasksBacked(cfg, s')
  {
    forall t | t in s'.tasks && s'.tasks[t].Caching? ensures Prepared(cfg, s'.log, s'.cache.now, s'.tasks[t]) {
      if !Prepared(cfg, s'.log, s'.cache.now, s'.tasks[t]) {
        PreparedLater(cfg, s.log, s.cache.now, s.tasks[t], s'.log, s'.cache.now);
      }
    }
  }

  lemma ArriveKeeps(cfg: Settings, s: AuthState, t: nat, r: Request)
    requires AuthInv(cfg, s)
    ensures AuthInv(cfg, Advance(cfg, s, Arrive(t, r)))
  {
    if t !in s.tasks && t !in s.cache.pending {
      CacheMoveBacked(cfg, s, GetLookup(t, Key(r)));
      TasksBackedLater(cfg, s, Advance(cfg, s, Arrive(t, r)));
    }
  }

  /** A cached reply is the one that Keystone's answer to this very request called for. */
  lemma CachedReplyBacked(cfg: Settings, log: seq<Note>, now: int, r: Request, e: Entry<Value>)
    requires Backed(cfg, log, now, Key(r), e) && now <= e.expires && Accepts(r, e.value)
    ensures ReplyBacked(cfg, log + [Replied(r, e.value.status, now, false)], |log|)
  {
    var j: nat, r': Request :| BackedBy(cfg, log, now, Key(r), e, j, r');
    assert r' == r;
    assert FromCachingAt(cfg, log + [Replied(r, e.value.status, now, false)], |log|, j);
  }

  lemma CheckKeeps(cfg: Settings, s: AuthState, t: nat)
    requires AuthInv(cfg, s)
    ensures AuthInv(cfg, Advance(cfg, s, Check(t)))
  {
    if t in s.tasks && s.tasks[t].Reading? && t in s.cache.pending && s.cache.pending[t].Found? {
      var s' := Advance(cfg, s, Check(t));
      CacheMoveBacked(cfg, s, GetCheck(t));
      TasksBackedLater(cfg, s, s');
      var r, e := s.tasks[t].request, s.cache.pending[t].entry;
      if s.cache.now <= e.expires && Accepts(r, e.value) {
        CachedReplyBacked(cfg, s.log, s.cache.now, r, e);
        RepliesLater(cfg, s.log, Replied(r, e.value.status, s.cache.now, false));
        CacheBackedLater(cfg, s.(cache := s'.cache), s'.log);
      }
    }
  }

  lemma PurgeKeeps(cfg: Settings, s: AuthState, t: nat)
    requires AuthInv(cfg, s)
    ensures AuthInv(cfg, Advance(cfg, s, Purge(t)))
  {
    if t in s.tasks && s.tasks[t].Reading? && t in s.cache.pending && s.cache.pending[t].Stale? {
      CacheMoveBacked(cfg, s, GetRemove(t));
      TasksBackedLater(cfg, s, Advance(cfg, s, Purge(t)));
    }
  }

  lemma AskKeeps(cfg: Settings, s: AuthState, t: nat, a: Answer, hashOk: bool)
    requires AuthInv(cfg, s)
    ensures AuthInv(cfg, Advance(cfg, s, Ask(t, a, hashOk)))
  {
    if t in s.tasks && s.tasks[t].Calling? {
      var s' := Advance(cfg, s, Ask(t, a, hashOk));
      var r, now := s.tasks[t].request, s.cache.now;
      var asked, reply := Asked(r, a, now), Replied(r, StatusFor(cfg, a), now, true);
      assert s'.log == (s.log + [asked]) + [reply];
      RepliesLater(cfg, s.log, asked);
      assert Direct(cfg, (s.log + [asked]) + [reply], |s.log| + 1);
      RepliesLater(cfg, s.log + [asked], reply);
      CacheBackedLater(cfg, s, s'.log);
      if t in s'.tasks {
        assert AnswerAt(s'.log, |s.log|, r, now);
      }
      TasksBackedLater(cfg, s, s');
    }
  }

  lemma StampKeeps(cfg: Settings, s: AuthState, t: nat)
    requires AuthInv(cfg, s)
    ensures AuthInv(cfg, Advance(cfg, s, Stamp(t)))
  {
    if t in s.tasks && s.tasks[t].Caching? && t !in s.cache.pending {
      var task, now := s.tasks[t], s.cache.now;
      var s' := Advance(cfg, s, Stamp(t));
      var noted := s.(log := s'.log);
      RepliesLater(cfg, s.log, Cached(task.request, task.answeredAt, now));
      CacheBackedLater(cfg, s, s'.log);
      assert Prepared(cfg, s.log, now, task);
      assert CachedAt(s'.log, |s.log|, task.request, now);
      assert BackedBy(cfg, s'.log, now, Key(task.request), Entry(task.value, now + task.ttl), |s.log|, task.request);
      CacheMoveBacked(cfg, noted, AddStamp(t, Key(task.request), task.value, task.ttl));
      TasksBackedLater(cfg, s, s');
    }
  }

  lemma CacheOnlyKeeps(cfg: Settings, s: AuthState, m: Move<string, Value>)
    requires AuthInv(cfg, s) && (m.Tick? || m.Fire? || m.AddStore?)
    ensures AuthInv(cfg, s.(cache := Next(s.cache, cfg.capacity, m)))
  {
    CacheMoveBacked(cfg, s, m);
    TasksBackedLater(cfg, s, s.(cache := Next(s.cache, cfg.capacity, m)));
  }

  lemma TimerKeeps(cfg: Settings, s: AuthState, t: nat)
    requires AuthInv(cfg, s)
    ensures AuthInv(cfg, Advance(cfg, s, SetTimer(t)))
  {
    if t in s.tasks && s.tasks[t].Adding? && t in s.cache.pending && s.cache.pending[t].Stored? {
      CacheMoveBacked(cfg, s, AddTimer(t));
      TasksBackedLater(cfg, s, Advance(cfg, s, SetTimer(t)));
    }
  }

  lemma AdvanceKeeps(cfg: Settings, s: AuthState, m: AuthMove)
    requires AuthInv(cfg, s)
    ensures AuthInv(cfg, Advance(cfg, s, m))
  {
    match m
    case Clock(d) => CacheOnlyKeeps(cfg, s, Tick(d));
    case Expire(timer) => CacheOnlyKeeps(cfg, s, Fire(timer));
    case Arrive(t, r) => ArriveKeeps(cfg, s, t, r);
    case Check(t) => CheckKeeps(cfg, s, t);
    case Purge(t) => PurgeKeeps(cfg, s, t);
    case Ask(t, a, hashOk) => AskKeeps(cfg, s, t, a, hashOk);
    case Stamp(t) => StampKeeps(cfg, s, t);
    case Store(t) => CacheOnlyKeeps(cfg, s, AddStore(t));
    case SetTimer(t) => TimerKeeps(cfg, s, t);
  }

  lemma {:induction false} ServeKeeps(cfg: Settings, start: int, moves: seq<AuthMove>)
    ensures AuthInv(cfg, Serve(cfg, start, moves))
  {
    if moves != [] {
      ServeKeeps(cfg, start, moves[..|moves| - 1]);
      AdvanceKeeps(cfg, Serve(cfg, start, moves[..|moves| - 1]), moves[|moves| - 1]);
    }
  }

  /**
   In every interleaving of requests, timers and the clock, a reply is what Keystone's answer to that very request
   calls for. It comes straight after the answer, or after a noted caching of the answer that is at most authTTL
   old for a grant and at most unauthTTL old for a 401.
   */
  lemma AuthenticatedMeansGranted(cfg: Settings, start: int, moves: seq<AuthMove>, p: nat) returns (i: nat, j: nat)
    requires p < |Serve(cfg, start, moves).log| && Serve(cfg, start, moves).log[p].Replied?
    ensures var log := Serve(cfg, start, moves).log;
            && i < p && log[i].Asked? && log[i].request == log[p].request && log[i].time <= log[p].time
            && Conveys(cfg, log[i].answer, log[p].status)
            && (log[p].status.authenticated <==> log[i].answer.Granted?)
            && (log[p].direct ==> i == p - 1 && log[i].time == log[p].time)
            && (!log[p].direct ==>
                  && i < j < p && log[j] == Cached(log[p].request, i, log[j].time)
                  && log[i].time <= log[j].time <= log[p].time
                  && (log[i].answer.Granted? ==> log[p].time <= log[j].time + cfg.authTTL)
                  && (!log[i].answer.Granted? ==>
                        log[i].answer.Unauthorized? && log[p].time <= log[j].time + cfg.unauthTTL))
  {
    ServeKeeps(cfg, start, moves);
    var log := Serve(cfg, start, moves).log;
    assert ReplyBacked(cfg, log, p);
    if log[p].direct {
      i, j := p - 1, p;
    } else {
      j :| FromCachingAt(cfg, log, p, j);
      i := log[j].answeredAt;
    }
    StatusForConveys(cfg, log[i].answer);
  }

  // ---- The handlers ---------------------------------------------------------------------

  /** The reply the cache can give at this time, if any. */
  function FromCache(lru: seq<Slot<string, Value>>, r: Request, now: int): Option<Status> {
    match Find(lru, Key(r))
    case None => None
    case Some(e) => if now <= e.expires && Accepts(r, e.value) then Some(e.value.status) else None
  }

  function AfterGet(lru: seq<Slot<string, Value>>, k: string, now: int): seq<Slot<string, Value>> {
    match Find(lru, k)
    case None => lru
    case Some(e) => if now <= e.expires then Touch(lru, k) else Remove(Touch(lru, k), k)
  }

  /** The cache after a request that Keystone answers with `a` if it is asked. */
  function AfterRequest(cfg: Settings, lru: seq<Slot<string, Value>>, r: Request, now: int, a: Answer, hashOk: bool)
    : seq<Slot<string, Value>>
  {
    var got := AfterGet(lru, Key(r), now);
    if FromCache(lru, r, now).Some? || a.OtherFailure? || (r.Credentials? && !hashOk) then got
    else Put(got, cfg.capacity, Key(r), Entry(ValueFor(cfg, r, a), now + TtlFor(cfg, a)))
  }

  class Authenticator {
    const cfg: Settings
    const cache: LRUExpireCache<string, Value>

    ghost predicate Valid()
      reads this, cache
    {
      cache.Valid() && cache.capacity == cfg.capacity
    }

    constructor (cfg: Settings)
      requires 0 < cfg.capacity
      ensures Valid() && this.cfg == cfg && cache.lru == [] && fresh(cache)
    {
      this.cfg := cfg;
      cache := new LRUExpireCache<string, Value>(cfg.capacity);
    }

    method GroupsFromTokenRole(token: Token) returns (groups: seq<string>)
      ensures groups == MappedGroups(cfg.mapping, token.roles) && GroupsAre(cfg.mapping, token.roles, [], groups)
    {
      groups := [];
      for i := 0 to |token.roles|
        invariant groups == MappedGroups(cfg.mapping, token.roles)[..i]
      {
        groups := groups + [if token.roles[i] in cfg.mapping then cfg.mapping[token.roles[i]] else ""];
      }
    }

    method StatusFromToken(token: Token, groups: Option<seq<string>>) returns (status: Status)
      ensures status == StatusFor(cfg, Granted(token, groups)) && Conveys(cfg, Granted(token, groups), status)
    {
      var all := GroupsFromTokenRole(token);
      if groups.Some? {
        all := all + groups.value;
      }
      assert MappedGroups(cfg.mapping, token.roles) + [] == MappedGroups(cfg.mapping, token.roles);
      status := Status(true, Some(User(token.userName, token.userID, all)));
    }

    /** `a` is what Keystone answers if it is asked. */
    method HandleCredentials(username: string, password: string, now: int, a: Answer, hashOk: bool)
      returns (status: Status)
      requires Valid()
      modifies cache
      ensures Valid()
      ensures var r := Credentials(username, password);
              && status == (match FromCache(old(cache.lru), r, now)
                            case Some(st) => st
                            case None => StatusFor(cfg, a))
              && (FromCache(old(cache.lru), r, now).None? ==> Conveys(cfg, a, status))
              && cache.lru == AfterRequest(cfg, old(cache.lru), r, now, a, hashOk)
    {
      hide Put, Touch, Remove, Find, Conveys;
      StatusForConveys(cfg, a);
      var e := cache.Get(username, now);
      if e.Some? {
        if e.value.CredentialsEntry? {
          if e.value.hashed == Hash(password) {
            return e.value.status;
          }
        }
      }
      status := Status(false, None);
      var ttl := cfg.unauthTTL;
      if a.OtherFailure? {
        return;
      } else if a.Granted? {
        status := StatusFromToken(a.token, a.groups);
        ttl := cfg.authTTL;
      }
      if !hashOk {
        return;
      }
      cache.Add(username, CredentialsEntry(Hash(password), status), ttl, now);
    }

    method HandleTokenID(tokenID: string, now: int, a: Answer) returns (status: Status)
      requires Valid()
      modifies cache
      ensures Valid()
      ensures var r := TokenID(tokenID);
              && status == (match FromCache(old(cache.lru), r, now)
                            case Some(st) => st
                            case None => StatusFor(cfg, a))
              && (FromCache(old(cache.lru), r, now).None? ==> Conveys(cfg, a, status))
              && cache.lru == AfterRequest(cfg, old(cache.lru), r, now, a, true)
    {
      hide Put, Touch, Remove, Find, Conveys;
      StatusForConveys(cfg, a);
      var e := cache.Get(tokenID, now);
      if e.Some? {
        if e.value.TokenEntry? {
          return e.value.status;
        }
      }
      status := Status(false, None);
      var ttl := cfg.unauthTTL;
      if a.OtherFailure? {
        return;
      } else if a.Granted? {
        status := StatusFromToken(a.token, a.groups);
        ttl := cfg.authTTL;
      }
      cache.Add(tokenID, TokenEntry(status), ttl, now);
    }
  }

  /** The part of a request that reads the cache, with nothing in between; some steps may turn out impossible. */
  function ReadPart(cfg: Settings, s: AuthState, t: nat, r: Request): AuthState {
    Advance(cfg, Advance(cfg, Advance(cfg, s, Arrive(t, r)), Check(t)), Purge(t))
  }

  /** The part that asks Keystone and caches its answer. */
  function AskPart(cfg: Settings, s: AuthState, t: nat, a: Answer, hashOk: bool): AuthState {
    Advance(cfg, Advance(cfg, Advance(cfg, Advance(cfg, s, Ask(t, a, hashOk)), Stamp(t)), Store(t)), SetTimer(t))
  }

  /** What is noted of a request that goes to Keystone. */
  function AnswerNotes(cfg: Settings, log: seq<Note>, r: Request, now: int, a: Answer, hashOk: bool): seq<Note> {
    [Asked(r, a, now), Replied(r, StatusFor(cfg, a), now, true)]
    + if a.OtherFailure? || (r.Credentials? && !hashOk) then [] else [Cached(r, |log|, now)]
  }

  lemma ReadsAlone(cfg: Settings, s: AuthState, t: nat, r: Request)
    requires t !in s.tasks && t !in s.cache.pending
    ensures var read := ReadPart(cfg, s, t, r);
            && read.cache.lru == AfterGet(s.cache.lru, Key(r), s.cache.now)
            && read.cache.now == s.cache.now && t !in read.cache.pending
            && match FromCache(s.cache.lru, r, s.cache.now)
               case Some(st) => t !in read.tasks && read.log == s.log + [Replied(r, st, s.cache.now, false)]
               case None => t in read.tasks && read.tasks[t] == Calling(r) && read.log == s.log
  {
    hide Touch, Remove, Put;
    var s1 := Advance(cfg, s, Arrive(t, r));
    var s2 := Advance(cfg, s1, Check(t));
    match Find(s.cache.lru, Key(r))
    case None =>
      assert s1.tasks[t] == Calling(r) && s2 == s1;
    case Some(e) =>
      assert s1.tasks[t] == Reading(r) && s1.cache.pending[t].Found? && s1.cache.pending[t].entry == e;
      if s.cache.now > e.expires {
        assert s2.cache.pending[t] == Stale(Key(r)) && s2.tasks[t] == Reading(r);
      }
  }

  lemma AsksAlone(cfg: Settings, s: AuthState, t: nat, a: Answer, hashOk: bool)
    requires t !in s.cache.pending && t in s.tasks && s.tasks[t].Calling?
    ensures var d, r := AskPart(cfg, s, t, a, hashOk), s.tasks[t].request;
            && t !in d.tasks && t !in d.cache.pending
            && d.log == s.log + AnswerNotes(cfg, s.log, r, s.cache.now, a, hashOk)
            && d.cache.lru == if a.OtherFailure? || (r.Credentials? && !hashOk) then s.cache.lru
                              else Put(s.cache.lru, cfg.capacity, Key(r),
                                       Entry(ValueFor(cfg, r, a), s.cache.now + TtlFor(cfg, a)))
  {
    hide Touch, Remove, Put, StatusFor, ValueFor, TtlFor;
    var asked := Advance(cfg, s, Ask(t, a, hashOk));
    var stamped := Advance(cfg, asked, Stamp(t));
    var stored := Advance(cfg, stamped, Store(t));
    if t in asked.tasks {
      assert stamped.cache.pending[t].Stamped? && stamped.tasks[t] == Adding;
      assert stored.cache.pending[t].Stored? && stored.tasks[t] == Adding;
    }
  }

  lemma NothingToAsk(cfg: Settings, s: AuthState, t: nat, a: Answer, hashOk: bool)
    requires t !in s.tasks
    ensures AskPart(cfg, s, t, a, hashOk) == s
  {
  }

  /** Without interference the machine does what the handlers do. */
  lemma AloneIsTheHandler(cfg: Settings, s: AuthState, t: nat, r: Request, a: Answer, hashOk: bool)
    requires t !in s.tasks && t !in s.cache.pending
    ensures var d := AskPart(cfg, ReadPart(cfg, s, t, r), t, a, hashOk);
            && d.cache.lru == AfterRequest(cfg, s.cache.lru, r, s.cache.now, a, hashOk)
            && t !in d.tasks && t !in d.cache.pending
            && d.log == s.log + match FromCache(s.cache.lru, r, s.cache.now)
                                case Some(st) => [Replied(r, st, s.cache.now, false)]
                                case None => AnswerNotes(cfg, s.log, r, s.cache.now, a, hashOk)
  {
    hide ReadPart, AskPart, Put, AfterGet, StatusFor, ValueFor, TtlFor;
    var read := ReadPart(cfg, s, t, r);
    ReadsAlone(cfg, s, t, r);
    if t in read.tasks {
      AsksAlone(cfg, read, t, a, hashOk);
    } else {
      NothingToAsk(cfg, read, t, a, hashOk);
    }
  }

  // ---- The cache does its work ----------------------------------------------------------

  /** The requests are for different users or tokens, also where one names a user and the other a token. */
  ghost predicate ForOthers(r: Request, other: Request) {
    match (r, other)
    case (Credentials(u, _), Credentials(v, _)) => u != v
    case (Credentials(u, _), TokenID(id)) => u != id
    case (TokenID(id), Credentials(u, _)) => id != u
    case (TokenID(id), TokenID(id')) => id != id'
  }

  lemma AfterGetSound(lru: seq<Slot<string, Value>>, capacity: nat, k: string, now: int)
    requires Sound(lru, capacity)
    ensures Sound(AfterGet(lru, k, now), capacity)
  {
    TouchSound(lru, capacity, k);
    RemoveSound(Touch(lru, k), capacity, k);
  }

  lemma AfterRequestSound(cfg: Settings, lru: seq<Slot<string, Value>>, r: Request, now: int, a: Answer, hashOk: bool)
    requires Sound(lru, cfg.capacity) && 0 < cfg.capacity
    ensures Sound(AfterRequest(cfg, lru, r, now, a, hashOk), cfg.capacity)
  {
    hide Sound, Put, AfterGet;
    AfterGetSound(lru, cfg.capacity, Key(r), now);
    PutSound(AfterGet(lru, Key(r), now), cfg.capacity, Key(r), Entry(ValueFor(cfg, r, a), now + TtlFor(cfg, a)));
  }

  /**
   An answer of Keystone, a grant or a 401, serves the same request again until its ttl is over, and no request
   with another password.
   */
  lemma RepeatIsServed(cfg: Settings, lru: seq<Slot<string, Value>>, r: Request, now: int, a: Answer, later: int)
    requires Sound(lru, cfg.capacity) && 0 < cfg.capacity && FromCache(lru, r, now).None? && !a.OtherFailure?
    requires later <= now + (if a.Granted? then cfg.authTTL else cfg.unauthTTL)
    ensures var after := AfterRequest(cfg, lru, r, now, a, true);
            && FromCache(after, r, later).Some? && Conveys(cfg, a, FromCache(after, r, later).value)
            && (r.Credentials? ==>
                  forall p :: p != r.password ==> FromCache(after, Credentials(r.username, p), later).None?)
  {
    hide Conveys, Put, AfterGet;
    AfterGetSound(lru, cfg.capacity, Key(r), now);
    PutSound(AfterGet(lru, Key(r), now), cfg.capacity, Key(r), Entry(ValueFor(cfg, r, a), now + TtlFor(cfg, a)));
    StatusForConveys(cfg, a);
  }

  /** What the cache holds for a request outlives a request for somebody else, in a cache with room for two. */
  lemma OthersLeaveItCached(cfg: Settings, lru: seq<Slot<string, Value>>, r: Request, other: Request, now: int,
                            a: Answer, hashOk: bool, later: int)
    requires Sound(lru, cfg.capacity) && 1 < cfg.capacity && ForOthers(r, other)
    requires lru != [] && lru[0].key == Key(r)
    ensures FromCache(AfterRequest(cfg, lru, other, now, a, hashOk), r, later) == FromCache(lru, r, later)
  {
    hide Put, Accepts, AfterGet;
    var got := AfterGet(lru, Key(other), now);
    GetLeavesOthers(lru, Key(other), now, Key(r));
    AfterGetSound(lru, cfg.capacity, Key(other), now);
    SecondAtWorst(lru, cfg.capacity, Key(other), now, Key(r));
    PutSparesOthers(got, cfg.capacity, Key(other), Entry(ValueFor(cfg, other, a), now + TtlFor(cfg, a)), Key(r));
  }

  /** So a request is served from the cache again even after a request for somebody else, whatever became of that. */
  lemma ServedAgainAfterOthers(cfg: Settings, lru: seq<Slot<string, Value>>, r: Request, now: int, a: Answer,
                               other: Request, meanwhile: int, b: Answer, hashOk: bool, later: int)
    requires Sound(lru, cfg.capacity) && 1 < cfg.capacity && FromCache(lru, r, now).None? && !a.OtherFailure?
    requires ForOthers(r, other) && later <= now + (if a.Granted? then cfg.authTTL else cfg.unauthTTL)
    ensures var after := AfterRequest(cfg, AfterRequest(cfg, lru, r, now, a, true), other, meanwhile, b, hashOk);
            FromCache(after, r, later).Some? && Conveys(cfg, a, FromCache(after, r, later).value)
  {
    hide Conveys, FromCache, AfterGet, Sound;
    RepeatIsServed(cfg, lru, r, now, a, later);
    AfterRequestSound(cfg, lru, r, now, a, true);
    OthersLeaveItCached(cfg, AfterRequest(cfg, lru, r, now, a, true), r, other, meanwhile, b, hashOk, later);
  }

  lemma GetLeavesOthers(lru: seq<Slot<string, Value>>, k: string, now: int, other: string)
    requires k != other
    ensures Find(AfterGet(lru, k, now), other) == Find(lru, other)
  {
    hide Remove;
    RemoveSparesOthers(lru, k, other);
    match Find(lru, k)
    case None =>
    case Some(e) =>
      var touched := [Slot(k, e)] + Remove(lru, k);
      assert touched[1..] == Remove(lru, k);
      RemoveSparesOthers(touched, k, other);
  }

  lemma SecondAtWorst(lru: seq<Slot<string, Value>>, capacity: nat, k: string, now: int, first: string)
    requires Sound(lru, capacity) && 1 < capacity && k != first && lru != [] && lru[0].key == first
    ensures !PushedOut(AfterGet(lru, k, now), capacity, k, first)
  {
    var rest := Remove(AfterGet(lru, k, now), k);
    RemovedTwice(lru, k, now);
    assert rest[0] == lru[0];
    RemoveKeepsOrder(lru, k);
  }

  lemma RemovedTwice(lru: seq<Slot<string, Value>>, k: string, now: int)
    ensures Remove(AfterGet(lru, k, now), k) == Remove(lru, k)
  {
    NothingToRemove(Remove(lru, k), k);
    match Find(lru, k)
    case None =>
    case Some(e) =>
      var touched := [Slot(k, e)] + Remove(lru, k);
      assert touched[1..] == Remove(lru, k);
  }

  lemma {:induction false} NothingToRemove(lru: seq<Slot<string, Value>>, k: string)
    requires forall x :: x in lru ==> x.key != k
    ensures Remove(lru, k) == lru
  {
    if lru != [] {
      NothingToRemove(lru[1..], k);
    }
  }
}
