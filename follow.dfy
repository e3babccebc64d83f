/**
 * Following the twins of a model: every twin the search reports starts one
 * follower, numbered from 1, until the cap on followers is reached and the
 * stream is closed; the items already buffered are still drained, and each
 * drained page with twins starts one more. Each follower reads its feed until
 * the subscription fails, logging the JSON values it receives.
 */
module FollowByModel {
  import opened Wrappers
  import opened Search
  import Text

  /** A twin to follow and the host that reported it. */
  datatype Target = Target(twinDid: string, hostId: Option<string>)

  /** A spawned follower: its 1-based spawn index, the twin it follows and that twin's host. */
  datatype Follower = Follower(number: nat, twinDid: string, hostId: Option<string>)

  /** What the command itself writes while reading the search stream. */
  datatype Written =
    | FoundFollowing(count: nat, model: string)
    | FoundNone(remoteHostId: Option<string>)
    | SearchErrorLine(message: string)

  /** The spawn loop's state: the followers spawned so far, what was written, and whether the stream is closed. */
  datatype Spawn = Spawn(followers: seq<Follower>, out: seq<Written>, closed: bool)

  /** The twins of one item of the stream, each with the page's host. */
  function PageTargets(page: SearchPage): seq<Target>
  {
    if page.Page? && page.payload.Some? then
      var p := page.payload.value;
      seq(|p.twins|, k requires 0 <= k < |p.twins| => Target(p.twins[k], p.remoteHostId))
    else []
  }

  /** Every twin the stream reports, in order. */
  function Targets(pages: seq<SearchPage>): seq<Target>
  {
    if |pages| == 0 then [] else Targets(pages[..|pages| - 1]) + PageTargets(pages[|pages| - 1])
  }

  /** The smallest number of followers that closes the stream: at least one is always spawned first. */
  function Cap(maximumTwins: nat): nat
  {
    if maximumTwins == 0 then 1 else maximumTwins
  }

  /**
   * How many twins a page's loop can take when `count` followers exist: up to
   * the cap, and once the cap is reached still one, since the loop spawns
   * before it checks the count.
   */
  function Room(count: nat, maximumTwins: nat): nat
  {
    if count < Cap(maximumTwins) then Cap(maximumTwins) - count else 1
  }

  /** The state after some iterations of one page's twin loop, and whether the loop has broken out. */
  datatype PageRun = PageRun(s: Spawn, left: bool)

  /**
   * The first `n` iterations of one page's twin loop: each spawns a follower
   * numbered one past the count so far; once the count reaches the maximum
   * the stream is closed and the loop left, skipping the page's other twins.
   */
  function SpawnTwins(s: Spawn, twins: seq<string>, hostId: Option<string>, maximumTwins: nat, n: nat): PageRun
    requires n <= |twins|
  {
    if n == 0 then PageRun(s, false)
    else
      var p := SpawnTwins(s, twins, hostId, maximumTwins, n - 1);
      if p.left then p
      else
        var count := |p.s.followers| + 1;
        var full := count >= maximumTwins;
        PageRun(p.s.(followers := p.s.followers + [Follower(count, twins[n - 1], hostId)], closed := p.s.closed || full), full)
  }

  /** One item of the stream: an error is written out, an empty page is reported, a page's twins are followed. */
  function PageStep(s: Spawn, page: SearchPage, model: string, maximumTwins: nat): Spawn
  {
    match page
    case SearchError(m) => s.(out := s.out + [SearchErrorLine(m)])
    case Page(None) => s
    case Page(Some(p)) =>
      if |p.twins| == 0 then s.(out := s.out + [FoundNone(p.remoteHostId)])
      else SpawnTwins(s.(out := s.out + [FoundFollowing(|p.twins|, model)]), p.twins, p.remoteHostId, maximumTwins, |p.twins|).s
  }

  /**
   * The first `n` items received. Closing the stream stops its senders, not
   * the receiver: the items already buffered are still received, so every
   * item of `pages` is handled, before and after the close.
   */
  function SpawnAll(pages: seq<SearchPage>, n: nat, model: string, maximumTwins: nat): Spawn
    requires n <= |pages|
  {
    if n == 0 then Spawn([], [], false)
    else PageStep(SpawnAll(pages, n - 1, model, maximumTwins), pages[n - 1], model, maximumTwins)
  }

  /**
   * How many of the first `n` items arrive once the twins reported have
   * reached the cap, and carry twins: each of them is drained from the closed
   * stream and spawns one follower more.
   */
  function Drained(pages: seq<SearchPage>, n: nat, maximumTwins: nat): nat
    requires n <= |pages|
  {
    if n == 0 then 0
    else
      Drained(pages, n - 1, maximumTwins)
        + (if |Targets(pages[..n - 1])| >= Cap(maximumTwins) && |PageTargets(pages[n - 1])| > 0 then 1 else 0)
  }

  /**
   * One page's loop: the followers already spawned stay, each new one is
   * numbered by its position and follows the page's next twin, the loop
   * takes as many twins as there is room for, and it closes the stream
   * exactly when it leaves early.
   */
  lemma {:induction false} SpawnTwinsSpec(s: Spawn, twins: seq<string>, hostId: Option<string>, maximumTwins: nat, n: nat)
    requires n <= |twins|
    ensures var r := SpawnTwins(s, twins, hostId, maximumTwins, n);
            var room := Room(|s.followers|, maximumTwins);
            && r.s.out == s.out
            && |r.s.followers| == |s.followers| + (if n < room then n else room)
            && (forall k :: 0 <= k < |s.followers| ==> r.s.followers[k] == s.followers[k])
            && (forall k :: |s.followers| <= k < |r.s.followers| ==>
                  r.s.followers[k] == Follower(k + 1, twins[k - |s.followers|], hostId))
            && (r.left <==> n >= room)
            && r.s.closed == (s.closed || r.left)
  {
    if n > 0 {
      SpawnTwinsSpec(s, twins, hostId, maximumTwins, n - 1);
    }
  }

  /** The twins of the first `n` items are those of the first `n - 1` and then the last item's. */
  lemma TargetsStep(pages: seq<SearchPage>, n: nat)
    requires 0 < n <= |pages|
    ensures Targets(pages[..n]) == Targets(pages[..n - 1]) + PageTargets(pages[n - 1])
  {
    assert pages[..n][..n - 1] == pages[..n - 1];
  }

  /**
   * After the first `n` items, with T twins reported so far: the stream is
   * closed exactly when T has reached the cap; followers are numbered by
   * spawn index; the first min(T, cap) of them follow the first twins
   * reported; and past the cap there is one more follower per drained item
   * with twins.
   */
  lemma {:induction false} SpawnAllSpec(pages: seq<SearchPage>, n: nat, model: string, maximumTwins: nat)
    requires n <= |pages|
    ensures var r := SpawnAll(pages, n, model, maximumTwins);
            var ts := Targets(pages[..n]);
            var cap := Cap(maximumTwins);
            && (r.closed <==> |ts| >= cap)
            && (|ts| < cap ==> |r.followers| == |ts| && Drained(pages, n, maximumTwins) == 0)
            && (|ts| >= cap ==> |r.followers| == cap + Drained(pages, n, maximumTwins))
            && (forall k :: 0 <= k < |r.followers| ==> r.followers[k].number == k + 1)
            && (forall k :: 0 <= k < |r.followers| && k < |ts| && k < cap ==>
                  r.followers[k] == Follower(k + 1, ts[k].twinDid, ts[k].hostId))
  {
    if n > 0 {
      SpawnAllSpec(pages, n - 1, model, maximumTwins);
      TargetsStep(pages, n);
      var p := SpawnAll(pages, n - 1, model, maximumTwins);
      var before := Targets(pages[..n - 1]);
      var added := PageTargets(pages[n - 1]);
      var ts := before + added;
      match pages[n - 1] {
        case SearchError(_) =>
        case Page(None) =>
        case Page(Some(pl)) =>
          if |pl.twins| > 0 {
            var s := p.(out := p.out + [FoundFollowing(|pl.twins|, model)]);
            SpawnTwinsSpec(s, pl.twins, pl.remoteHostId, maximumTwins, |pl.twins|);
            var r := SpawnTwins(s, pl.twins, pl.remoteHostId, maximumTwins, |pl.twins|).s;
            forall k | 0 <= k < |r.followers| && k < |ts| && k < Cap(maximumTwins)
              ensures r.followers[k] == Follower(k + 1, ts[k].twinDid, ts[k].hostId)
            {
              if k >= |before| {
                assert added[k - |before|] == Target(pl.twins[k - |before|], pl.remoteHostId);
              }
            }
          } else {
            assert added == [];
          }
      }
    }
  }

  /**
   * The whole stream, T twins reported: the first min(T, max(1, maximum))
   * followers follow the first twins reported, numbered from 1, so a maximum
   * of 0 still spawns one; every item drained after the close that carries
   * twins adds one follower beyond the cap.
   */
  lemma SpawnedFollowers(pages: seq<SearchPage>, model: string, maximumTwins: nat)
    ensures var r := SpawnAll(pages, |pages|, model, maximumTwins);
            var ts := Targets(pages);
            var cap := Cap(maximumTwins);
            && |r.followers| == (if |ts| < cap then |ts| else cap + Drained(pages, |pages|, maximumTwins))
            && (forall k :: 0 <= k < |r.followers| ==> r.followers[k].number == k + 1)
            && (forall k :: 0 <= k < |ts| && k < cap ==> r.followers[k] == Follower(k + 1, ts[k].twinDid, ts[k].hostId))
  {
    SpawnAllSpec(pages, |pages|, model, maximumTwins);
    assert pages[..|pages|] == pages;
  }

  /**
   * An item received after the close that carries twins announces them and
   * spawns exactly one follower, for its first twin, before the loop leaves
   * the page again.
   */
  lemma DrainedPageAddsOne(s: Spawn, remoteHostId: Option<string>, twins: seq<string>, model: string, maximumTwins: nat)
    requires s.closed && |s.followers| >= Cap(maximumTwins) && |twins| > 0
    ensures var r := PageStep(s, Page(Some(SearchPayload(remoteHostId, twins))), model, maximumTwins);
            && r.followers == s.followers + [Follower(|s.followers| + 1, twins[0], remoteHostId)]
            && r.out == s.out + [FoundFollowing(|twins|, model)]
            && r.closed
  {
    var s' := s.(out := s.out + [FoundFollowing(|twins|, model)]);
    SpawnTwinsSpec(s', twins, remoteHostId, maximumTwins, |twins|);
  }

  /** A page whose twin list is empty spawns nothing and only reports that no twins were found. */
  lemma EmptyPageSpawnsNothing(s: Spawn, remoteHostId: Option<string>, model: string, maximumTwins: nat)
    ensures var r := PageStep(s, Page(Some(SearchPayload(remoteHostId, []))), model, maximumTwins);
            r.followers == s.followers && r.out == s.out + [FoundNone(remoteHostId)] && r.closed == s.closed
  {
  }

  /**
   * The twin loop of one page: each twin spawns the next follower, and the
   * stream is closed, and the page left, as soon as the count reaches the
   * maximum.
   */
  method SpawnPage(followers0: seq<Follower>, out0: seq<Written>, closed0: bool, twins: seq<string>, hostId: Option<string>, maximumTwins: nat)
    returns (followers: seq<Follower>, closed: bool)
    ensures Spawn(followers, out0, closed) == SpawnTwins(Spawn(followers0, out0, closed0), twins, hostId, maximumTwins, |twins|).s
  {
    followers, closed := followers0, closed0;
    var count := |followers0|;
    var left := false;
    var j := 0;
    while j < |twins| && !left
      invariant 0 <= j <= |twins|
      invariant count == |followers|
      invariant PageRun(Spawn(followers, out0, closed), left) == SpawnTwins(Spawn(followers0, out0, closed0), twins, hostId, maximumTwins, j)
    {
      followers := followers + [Follower(count + 1, twins[j], hostId)];
      count := count + 1;
      if count >= maximumTwins {
        closed := true;
        left := true;
      }
      j := j + 1;
    }
    if left {
      SpawnLeftStays(Spawn(followers0, out0, closed0), twins, hostId, maximumTwins, j, |twins|);
    }
  }

  /** Once a page's loop has been left, its remaining twins change nothing. */
  lemma {:induction false} SpawnLeftStays(s: Spawn, twins: seq<string>, hostId: Option<string>, maximumTwins: nat, i: nat, n: nat)
    requires i <= n <= |twins|
    requires SpawnTwins(s, twins, hostId, maximumTwins, i).left
    ensures SpawnTwins(s, twins, hostId, maximumTwins, n) == SpawnTwins(s, twins, hostId, maximumTwins, i)
  {
    if n > i {
      SpawnLeftStays(s, twins, hostId, maximumTwins, i, n - 1);
    }
  }

  /**
   * `FollowByModel::run`'s page loop: every item received is handled, those
   * drained after the close included; the followers spawned and the lines
   * written are those of the whole stream.
   */
  method Run(pages: seq<SearchPage>, model: string, maximumTwins: nat) returns (followers: seq<Follower>, out: seq<Written>)
    ensures followers == SpawnAll(pages, |pages|, model, maximumTwins).followers
    ensures out == SpawnAll(pages, |pages|, model, maximumTwins).out
  {
    followers, out := [], [];
    var closed := false;
    var i := 0;
    while i < |pages|
      invariant 0 <= i <= |pages|
      invariant Spawn(followers, out, closed) == SpawnAll(pages, i, model, maximumTwins)
    {
      match pages[i] {
        case SearchError(m) =>
          out := out + [SearchErrorLine(m)];
        case Page(payload) =>
          if payload.Some? {
            var twins := payload.value.twins;
            if |twins| > 0 {
              out := out + [FoundFollowing(|twins|, model)];
              followers, closed := SpawnPage(followers, out, closed, twins, payload.value.remoteHostId, maximumTwins);
            } else {
              out := out + [FoundNone(payload.value.remoteHostId)];
            }
          }
      }
      i := i + 1;
    }
  }

  // The follower task.

  /** The feed data of a followed message: its mime type and its bytes. */
  datatype FeedData = FeedData(mime: string, data: seq<bv8>)

  /** The payload of a followed message, which may carry no feed data. */
  datatype FollowPayload = FollowPayload(feedData: Option<FeedData>)

  /** One read of the follow stream: a message (possibly without payload), no message, or a failure. */
  datatype FollowMessage =
    | Received(payload: Option<FollowPayload>)
    | NoMessage
    | StreamError(error: string)

  /** What a follower logs under its label. */
  datatype LogLine =
    | Started
    | Got(json: string)
    | DeserializeFailed(error: string)
    | GotNone
    | Crashed(error: string)
    | FailedToFollow(error: string)

  const JsonMime: string := "application/json"

  /** The feed data of a message that is decoded: only a mime type starting with `application/json` is. */
  predicate IsJsonFeed(m: FollowMessage)
  {
    m.Received? && m.payload.Some? && m.payload.value.feedData.Some? && Text.StartsWith(m.payload.value.feedData.value.mime, JsonMime)
  }

  /** The lines one message is logged with; `decode` stands for the JSON parser. */
  function HandleMessage(m: FollowMessage, decode: seq<bv8> -> Result<string, string>): seq<LogLine>
  {
    match m
    case Received(_) =>
      if IsJsonFeed(m) then
        match decode(m.payload.value.feedData.value.data)
        case Ok(v) => [Got(v)]
        case Err(e) => [DeserializeFailed(e)]
      else []
    case NoMessage => [GotNone]
    case StreamError(e) => [Crashed(e)]
  }

  /** A message is decoded, successfully or not, exactly when its feed data is JSON. */
  lemma DecodesOnlyJson(m: FollowMessage, decode: seq<bv8> -> Result<string, string>)
    ensures var lines := HandleMessage(m, decode);
            (exists k :: 0 <= k < |lines| && (lines[k].Got? || lines[k].DeserializeFailed?)) <==> IsJsonFeed(m)
  {
    var lines := HandleMessage(m, decode);
    if IsJsonFeed(m) {
      assert lines[0].Got? || lines[0].DeserializeFailed?;
    }
  }

  /** How many messages a follower reads: up to and including the first failure, or all of them. */
  function MessagesRead(messages: seq<FollowMessage>): (n: nat)
    ensures n <= |messages|
    ensures n < |messages| ==> n > 0 && messages[n - 1].StreamError?
    ensures forall j :: 0 <= j < n - 1 ==> !messages[j].StreamError?
  {
    if |messages| == 0 then 0
    else if messages[0].StreamError? then 1
    else 1 + MessagesRead(messages[1..])
  }

  /** The lines logged for the first `n` messages, in order. */
  function Logged(messages: seq<FollowMessage>, n: nat, decode: seq<bv8> -> Result<string, string>): seq<LogLine>
    requires n <= |messages|
  {
    if n == 0 then [] else Logged(messages, n - 1, decode) + HandleMessage(messages[n - 1], decode)
  }

  /** Only a failure is logged as a crash. */
  lemma {:induction false} CrashOnlyOnError(messages: seq<FollowMessage>, n: nat, decode: seq<bv8> -> Result<string, string>)
    requires n <= |messages|
    requires forall j :: 0 <= j < n ==> !messages[j].StreamError?
    ensures forall k :: 0 <= k < |Logged(messages, n, decode)| ==> !Logged(messages, n, decode)[k].Crashed?
  {
    if n > 0 {
      CrashOnlyOnError(messages, n - 1, decode);
    }
  }

  /**
   * The follow loop stops at its first failure and only there: an empty read
   * keeps it going, the failure is the last line logged, and no crash is
   * logged before it; without a failure every message is read.
   */
  lemma FollowStopsAtFirstError(messages: seq<FollowMessage>, decode: seq<bv8> -> Result<string, string>)
    ensures var n := MessagesRead(messages);
            var lines := Logged(messages, n, decode);
            && ((exists j :: 0 <= j < |messages| && messages[j].StreamError?) <==> (|lines| > 0 && lines[|lines| - 1].Crashed?))
            && (forall k :: 0 <= k < |lines| - 1 ==> !lines[k].Crashed?)
            && ((forall j :: 0 <= j < |messages| ==> !messages[j].StreamError?) ==> n == |messages|)
  {
    var n := MessagesRead(messages);
    if n > 0 {
      CrashOnlyOnError(messages, n - 1, decode);
    }
    if n < |messages| {
      assert messages[n - 1].StreamError?;
    } else if n > 0 && !messages[n - 1].StreamError? {
      CrashOnlyOnError(messages, n, decode);
    }
  }

  /**
   * The follow loop: messages are read while the follower is active, each is
   * logged, and only a failure makes it inactive.
   */
  method FollowLoop(messages: seq<FollowMessage>, decode: seq<bv8> -> Result<string, string>) returns (logged: seq<LogLine>, read: nat)
    ensures read == MessagesRead(messages)
    ensures logged == Logged(messages, read, decode)
  {
    logged, read := [], 0;
    var active := true;
    while active && read < |messages|
      invariant 0 <= read <= |messages|
      invariant forall j :: 0 <= j < read - 1 ==> !messages[j].StreamError?
      invariant active ==> forall j :: 0 <= j < read ==> !messages[j].StreamError?
      invariant !active ==> read > 0 && messages[read - 1].StreamError?
      invariant logged == Logged(messages, read, decode)
    {
      var message := messages[read];
      match message {
        case Received(payload) =>
          if payload.Some? && payload.value.feedData.Some? {
            var feedData := payload.value.feedData.value;
            if Text.StartsWith(feedData.mime, JsonMime) {
              var json := decode(feedData.data);
              match json {
                case Ok(v) => logged := logged + [Got(v)];
                case Err(e) => logged := logged + [DeserializeFailed(e)];
              }
            }
          }
        case NoMessage =>
          logged := logged + [GotNone];
        case StreamError(e) =>
          active := false;
          logged := logged + [Crashed(e)];
      }
      read := read + 1;
    }
    MessagesReadCharacterised(messages, read);
  }

  /** The first failure, or the end when there is none, is where reading stops. */
  lemma {:induction false} MessagesReadCharacterised(messages: seq<FollowMessage>, n: nat)
    requires n <= |messages|
    requires forall j :: 0 <= j < n - 1 ==> !messages[j].StreamError?
    requires n == |messages| || (n > 0 && messages[n - 1].StreamError?)
    ensures MessagesRead(messages) == n
  {
    if n > 0 && |messages| > 0 && !messages[0].StreamError? {
      var rest := messages[1..];
      assert forall j :: 0 <= j < n - 2 ==> rest[j] == messages[j + 1];
      MessagesReadCharacterised(rest, n - 1);
    }
  }

  /**
   * One follower task: it logs that it started when verbose, then either the
   * subscription's failure or what its follow loop logs.
   */
  method FollowTask(verbose: bool, subscription: Result<seq<FollowMessage>, string>, decode: seq<bv8> -> Result<string, string>)
    returns (logged: seq<LogLine>)
    ensures subscription.Err? ==> logged == (if verbose then [Started] else []) + [FailedToFollow(subscription.error)]
    ensures subscription.Ok? ==> logged == (if verbose then [Started] else []) + Logged(subscription.value, MessagesRead(subscription.value), decode)
  {
    logged := if verbose then [Started] else [];
    match subscription {
      case Ok(messages) =>
        var lines, _ := FollowLoop(messages, decode);
        logged := logged + lines;
      case Err(e) =>
        logged := logged + [FailedToFollow(e)];
    }
  }

  /** The label a follower logs under: its spawn index in a column of four, the twin and the feed. */
  function Label(number: nat, twinDid: string, feed: string): string
  {
    "Follower " + Text.PadLeft(Text.Decimal(number), 4) + " " + twinDid + " / " + feed
  }

  /** The label shows the spawn index, which reads back from its number column. */
  lemma LabelShowsNumber(number: nat, twinDid: string, feed: string)
    ensures var column := Text.PadLeft(Text.Decimal(number), 4);
            var l := Label(number, twinDid, feed);
            && Text.StartsWith(l, "Follower ")
            && |l| >= 9 + |column|
            && Text.ParseDecimal(Text.TrimStart(l[9..9 + |column|])) == number
  {
    var column := Text.PadLeft(Text.Decimal(number), 4);
    LabelColumn(column, twinDid, feed);
    Text.PaddedNumberReads(number, 4);
  }

  /** The number column of a label sits right after its nine-character prefix. */
  lemma LabelColumn(column: string, twinDid: string, feed: string)
    ensures var l := "Follower " + column + " " + twinDid + " / " + feed;
            Text.StartsWith(l, "Follower ") && |l| >= 9 + |column| && l[9..9 + |column|] == column
  {
    var prefix := "Follower ";
    var l := prefix + column + " " + twinDid + " / " + feed;
    assert |prefix| == 9;
    assert l[..9] == prefix;
    assert l[9..9 + |column|] == column;
  }
}
