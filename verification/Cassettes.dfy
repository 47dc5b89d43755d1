/** The record and replay cache of provider responses, as a cache over a disk map. */
module Cassettes {
  import opened Text

  datatype Request = Request(provider: string, model: string, prompt: string)

  datatype Response = Response(text: string, tokensIn: nat, tokensOut: nat, latencyMs: nat)

  datatype ProviderError = CassetteMiss | ParseResponse | Network | FromProvider(message: string)

  datatype Result = Ok(response: Response) | Err(error: ProviderError)

  datatype Mode = Disabled | Record | Replay | RecordOrReplay

  // A file is a cassette that parses, or anything else.
  datatype DiskFile = Cassette(requestHash: string, promptPreview: string, response: Response) | Corrupt

  type Disk = map<string, DiskFile>

  /** The text that is hashed; SHA-256 is taken to be injective, so this stands for the hash. */
  function CassetteKey(r: Request): string {
    r.provider + ":" + (r.model + ":" + r.prompt)
  }

  function ReplaceSlashes(s: string): string {
    if s == "" then "" else ReplaceSlashes(s[..|s| - 1]) + [if s[|s| - 1] == '/' then '_' else s[|s| - 1]]
  }

  function CassettePath(dir: string, provider: string, model: string, caseId: string): string {
    dir + "/v1.0.0/" + (provider + "/" + (model + "/" + (ReplaceSlashes(caseId) + ".json")))
  }

  datatype ReadResult = Hit(file: DiskFile) | Miss | Broken

  function ReadCassette(disk: Disk, path: string, hash: string): ReadResult {
    if path !in disk then Miss
    else if disk[path].Corrupt? then Broken
    else if disk[path].requestHash != hash then Miss
    else Hit(disk[path])
  }

  function Preview(prompt: string): string {
    if |prompt| <= 120 then prompt else prompt[..120]
  }

  function Envelope(r: Request, response: Response): DiskFile {
    Cassette(CassetteKey(r), Preview(r.prompt), response)
  }

  // ----- what the path and the key identify -----

  lemma {:induction false} NoSlashes(s: string)
    ensures '/' !in ReplaceSlashes(s)
  {
    if s != "" {
      NoSlashes(s[..|s| - 1]);
    }
  }

  /** Slashes become underscores and nothing else changes. */
  lemma {:induction false} SlashesExact(s: string)
    ensures |ReplaceSlashes(s)| == |s|
    ensures forall i :: 0 <= i < |s| ==> ReplaceSlashes(s)[i] == if s[i] == '/' then '_' else s[i]
  {
    if s != "" {
      SlashesExact(s[..|s| - 1]);
    }
  }

  lemma PathOfCase()
    ensures CassettePath("dir", "chat", "small", "a/b") == "dir/v1.0.0/chat/small/a_b.json"
  {
    SlashesExact("a/b");
    assert ReplaceSlashes("a/b") == "a_b";
  }

  lemma FirstSplit(a: string, d: string, b: string, e: string, c: char)
    requires a + [c] + d == b + [c] + e && c !in a && c !in b
    ensures a == b && d == e
  {
    FindAt(a, c, d);
    FindAt(b, c, e);
    var s := a + [c] + d;
    assert a == s[..|a|] && b == s[..|b|];
    assert d == s[|a| + 1..] && e == s[|b| + 1..];
  }

  /** A path names one provider and one model; the case id only up to its slashes. */
  lemma PathIdentifies(dir: string, p: string, m: string, c: string, q: string, n: string, d: string)
    requires '/' !in p && '/' !in q && CassettePath(dir, p, m, c) == CassettePath(dir, q, n, d)
    ensures p == q && m == n && ReplaceSlashes(c) == ReplaceSlashes(d)
  {
    var left, right := ReplaceSlashes(c) + ".json", ReplaceSlashes(d) + ".json";
    NoSlashes(c);
    NoSlashes(d);
    var root := dir + "/v1.0.0/";
    SameTail(root, p + "/" + (m + "/" + left), q + "/" + (n + "/" + right));
    FirstSplit(p, m + "/" + left, q, n + "/" + right, '/');
    assert m + "/" + left == m + ['/'] + left && n + "/" + right == n + ['/'] + right;
    LastSplit(m, left, n, right, '/');
    SameFront(ReplaceSlashes(c), ReplaceSlashes(d), ".json");
  }

  lemma SameTail(root: string, a: string, b: string)
    requires root + a == root + b
    ensures a == b
  {
    assert a == (root + a)[|root|..] && b == (root + b)[|root|..];
  }

  lemma SameFront(a: string, b: string, ext: string)
    requires a + ext == b + ext
    ensures a == b
  {
    assert |a| == |b|;
    assert a == (a + ext)[..|a|] && b == (b + ext)[..|b|];
  }

  /** With the provider and model known, the key names the prompt. */
  lemma KeyIdentifiesPrompt(p: string, m: string, x: string, y: string)
    requires CassetteKey(Request(p, m, x)) == CassetteKey(Request(p, m, y))
    ensures x == y
  {
    SameTail(p + ":", m + ":" + x, m + ":" + y);
    SameTail(m + ":", x, y);
  }

  /** The key alone does not: a colon in a model name can be moved into the prompt. */
  lemma KeyAmbiguous()
    ensures CassetteKey(Request("chat", "a:b", "c")) == CassetteKey(Request("chat", "a", "b:c"))
  {
    assert "a:b" + ":" + "c" == "a" + ":" + "b:c";
  }

  predicate ColonFree(r: Request) {
    ':' !in r.provider && ':' !in r.model
  }

  lemma KeyIdentifies(r: Request, q: Request)
    requires CassetteKey(r) == CassetteKey(q) && ColonFree(r) && ColonFree(q)
    ensures r == q
  {
    FirstSplit(r.provider, r.model + ":" + r.prompt, q.provider, q.model + ":" + q.prompt, ':');
    FirstSplit(r.model, r.prompt, q.model, q.prompt, ':');
  }

  /** Splitting at the first `c`. */
  lemma SplitFirst(s: string, c: char) returns (a: string, b: string)
    requires c in s
    ensures s == a + [c] + b && c !in a
  {
    var at := Find(s, c);
    a, b := s[..at.value], s[at.value + 1..];
  }

  /** Every key is the key of one request whose provider and model have no colon. */
  lemma ColonFreeTwin(r: Request) returns (q: Request)
    ensures ColonFree(q) && CassetteKey(q) == CassetteKey(r)
  {
    var key := CassetteKey(r);
    assert key[|r.provider|] == ':';
    var provider, rest := SplitFirst(key, ':');
    TwoColons(r, provider, rest);
    var model, prompt := SplitFirst(rest, ':');
    q := Request(provider, model, prompt);
    assert CassetteKey(q) == key;
  }

  lemma TwoColons(r: Request, a: string, rest: string)
    requires CassetteKey(r) == a + ":" + rest && ':' !in a
    ensures ':' in rest
  {
    var key := CassetteKey(r);
    var second := |r.provider| + 1 + |r.model|;
    assert key[|r.provider|] == ':' && key[second] == ':';
    forall i | 0 <= i < |a| ensures key[i] != ':' {
      assert key[i] == a[i];
    }
    assert rest[second - |a| - 1] == key[second];
  }

  /** The key of a request belongs to no other request with colon-free names exactly when its
      own provider and model have no colon. */
  lemma KeyExact(r: Request)
    ensures (forall q: Request :: ColonFree(q) && CassetteKey(q) == CassetteKey(r) ==> q == r) <==> ColonFree(r)
  {
    if ColonFree(r) {
      forall q: Request | ColonFree(q) && CassetteKey(q) == CassetteKey(r) ensures q == r {
        KeyIdentifies(r, q);
      }
    } else {
      var q := ColonFreeTwin(r);
    }
  }

  lemma CutElsewhere(r: Request) returns (q: Request)
    requires ColonFree(r) && ':' in r.prompt
    ensures q != r && CassetteKey(q) == CassetteKey(r)
  {
    var a, b := SplitFirst(r.prompt, ':');
    q := Request(r.provider, r.model + ":" + a, b);
    assert r.model + ":" + a + ":" + b == r.model + ":" + (a + ":" + b);
    assert |q.model| > |r.model|;
  }

  lemma NoThirdColon(r: Request, q: Request)
    requires ColonFree(r) && ':' !in r.prompt && CassetteKey(q) == CassetteKey(r)
    ensures ColonFree(q)
  {
    var key := CassetteKey(r);
    var first, second := |r.provider|, |r.provider| + 1 + |r.model|;
    assert OnlyColons(key, first, second);
    var p, m := |q.provider|, |q.provider| + 1 + |q.model|;
    assert key[p] == ':' && key[m] == ':';
    forall i | 0 <= i < |q.provider| ensures q.provider[i] != ':' {
      assert key[i] == q.provider[i];
    }
    forall i | 0 <= i < |q.model| ensures q.model[i] != ':' {
      assert key[p + 1 + i] == q.model[i];
    }
  }

  predicate OnlyColons(s: string, a: int, b: int) {
    forall i :: 0 <= i < |s| && s[i] == ':' ==> i == a || i == b
  }

  /** The key belongs to no other request at all exactly when there is no colon anywhere. */
  lemma KeyUnique(r: Request)
    ensures (forall q: Request :: CassetteKey(q) == CassetteKey(r) ==> q == r) <==> ColonFree(r) && ':' !in r.prompt
  {
    if ColonFree(r) && ':' !in r.prompt {
      forall q: Request | CassetteKey(q) == CassetteKey(r) ensures q == r {
        NoThirdColon(r, q);
        KeyIdentifies(r, q);
      }
    } else if ColonFree(r) {
      var q := CutElsewhere(r);
    } else {
      var q := ColonFreeTwin(r);
    }
  }

  // ----- the cache -----

  // What the inner provider has answered so far.
  type Answers = set<(Request, Response)>

  /** The file was recorded for some request at this path, and holds an answer to that request. */
  ghost predicate Recorded(dir: string, path: string, file: DiskFile, answers: Answers) {
    file.Cassette? ==> exists r: Request, c: string ::
      && '/' !in r.provider && path == CassettePath(dir, r.provider, r.model, c)
      && file.requestHash == CassetteKey(r) && (r, file.response) in answers
  }

  ghost predicate Genuine(dir: string, disk: Disk, answers: Answers) {
    forall path :: path in disk ==> Recorded(dir, path, disk[path], answers)
  }

  /** A hit is an answer of the provider to this very request. */
  lemma HitIsAnswer(dir: string, disk: Disk, answers: Answers, r: Request, c: string)
    requires Genuine(dir, disk, answers) && '/' !in r.provider
    requires ReadCassette(disk, CassettePath(dir, r.provider, r.model, c), CassetteKey(r)).Hit?
    ensures (r, ReadCassette(disk, CassettePath(dir, r.provider, r.model, c), CassetteKey(r)).file.response) in answers
  {
    var path := CassettePath(dir, r.provider, r.model, c);
    var file := disk[path];
    assert Recorded(dir, path, file, answers);
    var q: Request, d: string :|
      && '/' !in q.provider && path == CassettePath(dir, q.provider, q.model, d)
      && file.requestHash == CassetteKey(q) && (q, file.response) in answers;
    PathIdentifies(dir, r.provider, r.model, c, q.provider, q.model, d);
    KeyIdentifiesPrompt(r.provider, r.model, r.prompt, q.prompt);
    assert q == r;
  }

  lemma RecordKeepsGenuine(dir: string, disk: Disk, answers: Answers, r: Request, c: string, response: Response)
    requires Genuine(dir, disk, answers) && '/' !in r.provider
    ensures Genuine(dir, disk, answers + {(r, response)})
    ensures Genuine(dir, disk[CassettePath(dir, r.provider, r.model, c) := Envelope(r, response)],
                    answers + {(r, response)})
  {
    var path := CassettePath(dir, r.provider, r.model, c);
    forall p | p in disk ensures Recorded(dir, p, disk[p], answers + {(r, response)}) {
      assert Recorded(dir, p, disk[p], answers);
    }
    assert Recorded(dir, path, Envelope(r, response), answers + {(r, response)});
  }

  // One call: what it asks for, and what the provider and the disk would do if involved.
  datatype Call = Call(mode: Mode, request: Request, caseId: string, live: Result, writable: bool)

  datatype CacheState = CacheState(disk: Disk, answers: Answers)

  function PathOf(dir: string, c: Call): string {
    CassettePath(dir, c.request.provider, c.request.model, c.caseId)
  }

  function Lookup(dir: string, disk: Disk, c: Call): ReadResult {
    ReadCassette(disk, PathOf(dir, c), CassetteKey(c.request))
  }

  /** The provider is asked unless a cassette hits, or the mode is Replay. */
  predicate Asks(dir: string, disk: Disk, c: Call) {
    c.mode.Disabled? || c.mode.Record? || (c.mode.RecordOrReplay? && !Lookup(dir, disk, c).Hit?)
  }

  predicate Records(dir: string, disk: Disk, c: Call) {
    Asks(dir, disk, c) && !c.mode.Disabled? && c.live.Ok? && c.writable
  }

  function AfterCall(dir: string, s: CacheState, c: Call): CacheState {
    CacheState(if Records(dir, s.disk, c) then s.disk[PathOf(dir, c) := Envelope(c.request, c.live.response)]
               else s.disk,
               s.answers + if Asks(dir, s.disk, c) && c.live.Ok? then {(c.request, c.live.response)} else {})
  }

  function Reply(dir: string, s: CacheState, c: Call): Result {
    if Asks(dir, s.disk, c) then c.live
    else
      match Lookup(dir, s.disk, c)
      case Hit(file) => Ok(file.response)
      case Miss => Err(CassetteMiss)
      case Broken => Err(ParseResponse)
  }

  /** Does the disk hold a cassette of this call's own request? */
  predicate Stored(dir: string, disk: Disk, c: Call) {
    var path := CassettePath(dir, c.request.provider, c.request.model, c.caseId);
    path in disk && disk[path].Cassette? && disk[path].requestHash == CassetteKey(c.request)
  }

  /** The disk once the provider's answer is recorded, if there is one and the disk lets it. */
  function AfterRecording(dir: string, disk: Disk, c: Call): Disk {
    if c.live.Ok? && c.writable then
      disk[CassettePath(dir, c.request.provider, c.request.model, c.caseId) :=
           Cassette(CassetteKey(c.request), Preview(c.request.prompt), c.live.response)]
    else disk
  }

  /** Mode by mode: who answers, with which error, and what becomes of the disk. */
  lemma CallExact(dir: string, s: CacheState, c: Call)
    ensures var path := CassettePath(dir, c.request.provider, c.request.model, c.caseId);
            var t, reply := AfterCall(dir, s, c), Reply(dir, s, c);
            match c.mode
            case Disabled => reply == c.live && t.disk == s.disk
            case Record => reply == c.live && t.disk == AfterRecording(dir, s.disk, c)
            case Replay =>
              && t == s
              && reply == (if Stored(dir, s.disk, c) then Ok(s.disk[path].response)
                           else if path in s.disk && s.disk[path].Corrupt? then Err(ParseResponse)
                           else Err(CassetteMiss))
            case RecordOrReplay =>
              if Stored(dir, s.disk, c) then t == s && reply == Ok(s.disk[path].response)
              else reply == c.live && t.disk == AfterRecording(dir, s.disk, c)
    ensures forall r, a :: (r, a) in AfterCall(dir, s, c).answers - s.answers ==>
              r == c.request && c.live == Ok(a) && Reply(dir, s, c) == c.live
  {
    assert s.answers + {} == s.answers;
  }

  /** The preview is the front of the prompt, at most 120 characters of it. */
  lemma PreviewExact(prompt: string)
    ensures Preview(prompt) <= prompt
    ensures |Preview(prompt)| == 120 || (|prompt| < 120 && Preview(prompt) == prompt)
  {
  }

  class Cache {
    const dir: string
    var disk: Disk
    ghost var answers: Answers

    ghost predicate Valid()
      reads this
    {
      Genuine(dir, disk, answers)
    }

    ghost function State(): CacheState
      reads this
    {
      CacheState(disk, answers)
    }

    constructor (dir: string, disk: Disk, ghost answers: Answers)
      requires Genuine(dir, disk, answers)
      ensures Valid() && this.dir == dir && State() == CacheState(disk, answers)
    {
      this.dir, this.disk, this.answers := dir, disk, answers;
    }

    /** Records an answer if the disk lets it. */
    method Write(r: Request, caseId: string, response: Response, writable: bool)
      requires Valid() && '/' !in r.provider && (r, response) in answers
      modifies this`disk
      ensures Valid()
      ensures disk ==
              if writable then old(disk)[CassettePath(dir, r.provider, r.model, caseId) := Envelope(r, response)]
                      else old(disk)
    {
      RecordKeepsGenuine(dir, disk, answers, r, caseId, response);
      assert answers + {(r, response)} == answers;
      if writable {
        disk := disk[CassettePath(dir, r.provider, r.model, caseId) := Envelope(r, response)];
      }
    }

    /** The suite runner's fetch. */
    method Fetch(c: Call) returns (result: Result)
      requires Valid() && '/' !in c.request.provider
      modifies this
      ensures Valid()
      ensures State() == AfterCall(dir, old(State()), c) && result == Reply(dir, old(State()), c)
      ensures result.Ok? ==> (c.request, result.response) in answers
    {
      if c.mode.Replay? || c.mode.RecordOrReplay? {
        var read := ReadCassette(disk, CassettePath(dir, c.request.provider, c.request.model, c.caseId),
                                 CassetteKey(c.request));
        if read.Hit? {
          HitIsAnswer(dir, disk, answers, c.request, c.caseId);
          return Ok(read.file.response);
        }
        if c.mode.Replay? {
          return Err(if read.Miss? then CassetteMiss else ParseResponse);
        }
      }
      result := c.live;
      if c.live.Ok? {
        RecordKeepsGenuine(dir, disk, answers, c.request, c.caseId, c.live.response);
        answers := answers + {(c.request, c.live.response)};
        if !c.mode.Disabled? {
          Write(c.request, c.caseId, c.live.response, c.writable);
        }
      }
    }

    /** The wrapping provider's send: like Fetch, but a broken cassette and a failed write are errors. */
    method Send(mode: Mode, r: Request, caseId: string, live: Result, writable: bool)
      returns (result: Result, asked: bool)
      requires Valid() && '/' !in r.provider
      modifies this
      ensures Valid()
      ensures result.Ok? ==> (r, result.response) in answers
      ensures answers == old(answers) + if asked && live.Ok? then {(r, live.response)} else {}
      ensures asked <==> mode.Disabled? || mode.Record?
                         || (mode.RecordOrReplay? &&
                             ReadCassette(old(disk), CassettePath(dir, r.provider, r.model, caseId),
                                          CassetteKey(r)).Miss?)
      ensures asked ==> result == if live.Ok? && !mode.Disabled? && !writable then Err(Network) else live
      ensures !asked ==> match ReadCassette(old(disk), CassettePath(dir, r.provider, r.model, caseId), CassetteKey(r))
                         case Hit(file) => result == Ok(file.response)
                         case Miss => result == Err(CassetteMiss)
                         case Broken => result == Err(ParseResponse)
      ensures disk == if asked && !mode.Disabled? && live.Ok? && writable
                      then old(disk)[CassettePath(dir, r.provider, r.model, caseId) := Envelope(r, live.response)]
                      else old(disk)
    {
      asked := true;
      if mode.Replay? || mode.RecordOrReplay? {
        var read := ReadCassette(disk, CassettePath(dir, r.provider, r.model, caseId), CassetteKey(r));
        if read.Broken? {
          return Err(ParseResponse), false;
        }
        if read.Hit? {
          HitIsAnswer(dir, disk, answers, r, caseId);
          return Ok(read.file.response), false;
        }
        if mode.Replay? {
          return Err(CassetteMiss), false;
        }
      }
      result := live;
      if live.Ok? {
        RecordKeepsGenuine(dir, disk, answers, r, caseId, live.response);
        answers := answers + {(r, live.response)};
        if !mode.Disabled? {
          Write(r, caseId, live.response, writable);
          if !writable {
            result := Err(Network);
          }
        }
      }
    }
  }

  // ----- histories of calls -----

  function AfterCalls(dir: string, s: CacheState, cs: seq<Call>): CacheState {
    if cs == [] then s else AfterCall(dir, AfterCalls(dir, s, cs[..|cs| - 1]), cs[|cs| - 1])
  }

  ghost predicate PlainProviders(cs: seq<Call>) {
    forall c :: c in cs ==> '/' !in c.request.provider
  }

  lemma {:induction false} CallsKeepGenuine(dir: string, s: CacheState, cs: seq<Call>)
    requires Genuine(dir, s.disk, s.answers) && PlainProviders(cs)
    ensures Genuine(dir, AfterCalls(dir, s, cs).disk, AfterCalls(dir, s, cs).answers)
    decreases |cs|
  {
    if cs != [] {
      var front, c := cs[..|cs| - 1], cs[|cs| - 1];
      var t := AfterCalls(dir, s, front);
      assert forall d :: d in front ==> d in cs;
      CallsKeepGenuine(dir, s, front);
      assert c in cs;
      if c.live.Ok? { RecordKeepsGenuine(dir, t.disk, t.answers, c.request, c.caseId, c.live.response); }
      assert t.answers + {} == t.answers;
    }
  }

  /** An answer given after a history came from the provider, for the same request. */
  lemma {:induction false} AnswersComeFromCalls(dir: string, s: CacheState, cs: seq<Call>, r: Request,
                                                response: Response)
    requires (r, response) in AfterCalls(dir, s, cs).answers
    ensures (r, response) in s.answers || exists i :: 0 <= i < |cs| && cs[i].request == r && cs[i].live == Ok(response)
    decreases |cs|
  {
    if cs != [] {
      var front, c := cs[..|cs| - 1], cs[|cs| - 1];
      if (r, response) in AfterCalls(dir, s, front).answers {
        AnswersComeFromCalls(dir, s, front, r, response);
        if i :| 0 <= i < |front| && front[i].request == r && front[i].live == Ok(response) {
          assert cs[i] == front[i];
        }
      } else {
        assert cs[|cs| - 1].request == r && cs[|cs| - 1].live == Ok(response);
      }
    }
  }

  /** After any calls in any modes on an empty disk, a replayed response is one that the
      provider gave earlier to the same provider, model and prompt. */
  lemma ReplayAgrees(dir: string, cs: seq<Call>, c: Call)
    requires PlainProviders(cs) && '/' !in c.request.provider
    requires var s := AfterCalls(dir, CacheState(map[], {}), cs);
             !Asks(dir, s.disk, c) && Reply(dir, s, c).Ok?
    ensures var s := AfterCalls(dir, CacheState(map[], {}), cs);
            exists i :: 0 <= i < |cs| && cs[i].request == c.request && cs[i].live == Reply(dir, s, c)
  {
    var s := AfterCalls(dir, CacheState(map[], {}), cs);
    CallsKeepGenuine(dir, CacheState(map[], {}), cs);
    HitIsAnswer(dir, s.disk, s.answers, c.request, c.caseId);
    AnswersComeFromCalls(dir, CacheState(map[], {}), cs, c.request, Reply(dir, s, c).response);
  }

  /** No call of the history writes the file of this call. */
  ghost predicate LeavesAlone(dir: string, s: CacheState, cs: seq<Call>, path: string) {
    forall i :: 0 <= i < |cs| && PathOf(dir, cs[i]) == path ==> !Records(dir, AfterCalls(dir, s, cs[..i]).disk, cs[i])
  }

  lemma {:induction false} FileStays(dir: string, s: CacheState, cs: seq<Call>, path: string)
    requires path in s.disk && LeavesAlone(dir, s, cs, path)
    ensures path in AfterCalls(dir, s, cs).disk && AfterCalls(dir, s, cs).disk[path] == s.disk[path]
    decreases |cs|
  {
    if cs != [] {
      var front := cs[..|cs| - 1];
      forall i | 0 <= i < |front| && PathOf(dir, front[i]) == path
        ensures !Records(dir, AfterCalls(dir, s, front[..i]).disk, front[i])
      {
        assert front[..i] == cs[..i] && front[i] == cs[i];
      }
      FileStays(dir, s, front, path);
    }
  }

  /** What one call records, a later call for the same request and case replays, as long as
      nothing else is recorded in the same file in between. */
  lemma RecordedIsReplayed(dir: string, s: CacheState, first: Call, cs: seq<Call>, again: Call)
    requires Records(dir, s.disk, first)
    requires again.request == first.request && again.caseId == first.caseId
    requires again.mode.Replay? || again.mode.RecordOrReplay?
    requires LeavesAlone(dir, AfterCall(dir, s, first), cs, PathOf(dir, first))
    ensures var t := AfterCalls(dir, AfterCall(dir, s, first), cs);
            !Asks(dir, t.disk, again) && Reply(dir, t, again) == first.live && AfterCall(dir, t, again) == t
  {
    FileStays(dir, AfterCall(dir, s, first), cs, PathOf(dir, first));
  }
}
