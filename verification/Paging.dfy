/** Reading a mailbox page by page, and handing every batch to a visitor. */
module Paging {
  import opened Common
  import opened Classifier

  /** A message as the Gmail client returns it. */
  datatype Item = Item(id: string, threadId: string, from: string, subject: string, snippet: string)

  /** What asking for one page gives. */
  datatype Reply = Page(items: seq<Item>, next: string) | Failed

  datatype Stop = ReadFailed | Refused

  /** Where messages come from: a fixed list or its failure, or Gmail's pages by token. */
  datatype Source = Mock(messages: Option<seq<Message>>) | Gmail(pages: string -> Reply)

  // ----- batches --------------------------------------------------------------

  function ToMessage(x: Item): Message { Message(x.id, x.threadId, x.from, x.subject, x.snippet) }

  method ToMessages(items: seq<Item>) returns (r: seq<Message>)
    ensures |r| == |items|
    ensures forall i :: 0 <= i < |items| ==>
      && r[i].id == items[i].id && r[i].threadId == items[i].threadId && r[i].from == items[i].from
      && r[i].subject == items[i].subject && r[i].bodySnippet == items[i].snippet
    ensures r == Batch(items)
  {
    r := [];
    for i := 0 to |items|
      invariant r == Batch(items[..i])
    {
      r := r + [ToMessage(items[i])];
      assert items[..i + 1] == items[..i] + [items[i]];
    }
    assert items[..|items|] == items;
  }

  function Batch(items: seq<Item>): (r: seq<Message>)
    ensures |r| == |items| && forall i :: 0 <= i < |items| ==> r[i] == ToMessage(items[i])
  {
    if items == [] then [] else Batch(items[..|items| - 1]) + [ToMessage(items[|items| - 1])]
  }

  // ----- the chain of tokens ---------------------------------------------------

  /** The reply that ends the loop: a failure, no next token, or the token just used. */
  predicate Last(token: string, reply: Reply) {
    reply.Failed? || reply.next == "" || reply.next == token
  }

  /** Tokens as they are asked for, one page after the other, from `token` on. */
  ghost predicate Path(pages: string -> Reply, token: string, ts: seq<string>) {
    && |ts| > 0 && ts[0] == token
    && (forall i :: 0 <= i < |ts| - 1 ==> !Last(ts[i], pages(ts[i])) && ts[i + 1] == pages(ts[i]).next)
  }

  /** The tokens asked for, from `token` to a page that ends the loop. */
  ghost predicate Chain(pages: string -> Reply, token: string, ts: seq<string>) {
    Path(pages, token, ts) && Last(ts[|ts| - 1], pages(ts[|ts| - 1]))
  }

  /** What a reply gives to visit: nothing when the page is empty. */
  function BatchOf(reply: Reply): seq<seq<Message>> {
    if reply.Page? && reply.items != [] then [Batch(reply.items)] else []
  }

  /** The non-empty pages along the tokens, in order. */
  function Batches(pages: string -> Reply, ts: seq<string>): seq<seq<Message>> {
    if ts == [] then [] else BatchOf(pages(ts[0])) + Batches(pages, ts[1..])
  }

  /** A visitor with state `S`: called batch by batch until it refuses one. */
  function Feed<S>(visit: (S, seq<Message>) -> (S, bool), s: S, batches: seq<seq<Message>>): (S, bool) {
    if batches == [] then (s, true)
    else
      var (t, ok) := visit(s, batches[0]);
      if ok then Feed(visit, t, batches[1..]) else (t, false)
  }

  /** The visitor refuses a page along the tokens. */
  ghost predicate Refuses<S>(pages: string -> Reply, visit: (S, seq<Message>) -> (S, bool), init: S, token: string,
                             ts: seq<string>) {
    Path(pages, token, ts) && !Feed(visit, init, Batches(pages, ts)).1
  }

  /** Along the tokens the loop comes to its end: at a page that ends it, or at a refusal. */
  ghost predicate Stops<S>(pages: string -> Reply, visit: (S, seq<Message>) -> (S, bool), init: S, token: string,
                           ts: seq<string>) {
    Chain(pages, token, ts) || Refuses(pages, visit, init, token, ts)
  }

  /** One page further along the chain. */
  lemma FeedPage<S>(visit: (S, seq<Message>) -> (S, bool), s: S, pages: string -> Reply, ts: seq<string>, k: nat)
    requires k < |ts|
    ensures Feed(visit, s, Batches(pages, ts[k..])) ==
      if BatchOf(pages(ts[k])) == [] then Feed(visit, s, Batches(pages, ts[k + 1..]))
      else
        var (t, ok) := visit(s, BatchOf(pages(ts[k]))[0]);
        if ok then Feed(visit, t, Batches(pages, ts[k + 1..])) else (t, false)
  {
    assert ts[k..][1..] == ts[k + 1..];
    var head := BatchOf(pages(ts[k]));
    var rest := Batches(pages, ts[k + 1..]);
    if head == [] {
      assert head + rest == rest;
    } else {
      assert (head + rest)[1..] == rest;
    }
  }

  /** What there is to visit. */
  function Offered(source: Source, ts: seq<string>): seq<seq<Message>> {
    match source
    case Mock(messages) => if messages.None? || messages.value == [] then [] else [messages.value]
    case Gmail(pages) => Batches(pages, ts)
  }

  predicate ReadFails(source: Source, ts: seq<string>) {
    match source
    case Mock(messages) => messages.None?
    case Gmail(pages) => ts != [] && pages(ts[|ts| - 1]).Failed?
  }

  /** Along the tokens the loop asks for, a page that names another one, whatever it holds, is followed by that
      one, as long as the visitor has refused nothing. */
  lemma NextPageIsAsked<S>(pages: string -> Reply, visit: (S, seq<Message>) -> (S, bool), init: S, token: string,
                           ts: seq<string>, k: nat)
    requires Stops(pages, visit, init, token, ts) && k < |ts| && Feed(visit, init, Batches(pages, ts[..k + 1])).1
    requires pages(ts[k]).Page? && pages(ts[k]).next != "" && pages(ts[k]).next != ts[k]
    ensures k + 1 < |ts| && ts[k + 1] == pages(ts[k]).next
  {
    var taken := ts[..k + 1];
    assert |taken| == |ts| ==> taken == ts;
  }

  /** So the token asked for after `n + 1` pages is the one that the page before it names. */
  lemma NextIsAsked(pages: string -> Reply, token: string, n: nat)
    requires Asked(pages, token, n).Some?
    requires var t := Asked(pages, token, n).value;
      pages(t).Page? && pages(t).next != "" && pages(t).next != t
    ensures Asked(pages, token, n + 1) == Some(pages(Asked(pages, token, n).value).next)
  {
  }

  /** After a page that does not end the loop, and that the visitor has taken, there is one more. */
  lemma GoesOn<S>(pages: string -> Reply, visit: (S, seq<Message>) -> (S, bool), init: S, ts: seq<string>, k: nat, t: S)
    requires Stops(pages, visit, init, "", ts) && k < |ts| && !Last(ts[k], pages(ts[k]))
    requires Feed(visit, init, Batches(pages, ts)) == Feed(visit, t, Batches(pages, ts[k + 1..]))
    ensures k + 1 < |ts| && ts[k + 1] == pages(ts[k]).next
  {
    var rest := ts[k + 1..];
    assert rest == [] ==> Batches(pages, rest) == [];
  }

  /** Of a path the last page alone can end the loop. */
  lemma LastIsLast(pages: string -> Reply, ts: seq<string>, k: nat)
    requires Path(pages, "", ts) && k < |ts| && Last(ts[k], pages(ts[k]))
    ensures k == |ts| - 1 && Batches(pages, ts[k + 1..]) == []
  {
  }

  /** The loop over pages. Wherever it ends at all, it has fed the visitor the non-empty pages in order up to
      the first refusal; `ts` is ghost and bounds the loop. */
  method IteratePages<S>(pages: string -> Reply, visit: (S, seq<Message>) -> (S, bool), init: S, ghost ts: seq<string>)
    returns (s: S, stop: Option<Stop>)
    requires Stops(pages, visit, init, "", ts)
    ensures s == Feed(visit, init, Batches(pages, ts)).0
    ensures stop == if !Feed(visit, init, Batches(pages, ts)).1 then Some(Refused)
                    else if pages(ts[|ts| - 1]).Failed? then Some(ReadFailed) else None
  {
    s, stop := init, None;
    var token := "";
    ghost var k := 0;
    while true
      invariant 0 <= k < |ts| && token == ts[k] && stop == None
      invariant Feed(visit, init, Batches(pages, ts)) == Feed(visit, s, Batches(pages, ts[k..]))
      decreases |ts| - k
    {
      var reply := pages(token);
      FeedPage(visit, s, pages, ts, k);
      if Last(token, reply) { LastIsLast(pages, ts, k); }
      if reply.Failed? { return s, Some(ReadFailed); }
      var batch := ToMessages(reply.items);
      if |batch| > 0 {
        var (t, ok) := visit(s, batch);
        s := t;
        if !ok { return s, Some(Refused); }
      }
      if reply.next == "" || reply.next == token { return; }
      GoesOn(pages, visit, init, ts, k, s);
      token, k := reply.next, k + 1;
    }
  }

  /** Every source feeds the visitor what it offers; an error is a failed read or a refusal. */
  method IterateMessages<S>(source: Source, visit: (S, seq<Message>) -> (S, bool), init: S, ghost ts: seq<string>)
    returns (s: S, stop: Option<Stop>)
    requires source.Gmail? ==> Stops(source.pages, visit, init, "", ts)
    ensures s == Feed(visit, init, Offered(source, ts)).0
    ensures stop == if !Feed(visit, init, Offered(source, ts)).1 then Some(Refused)
                    else if ReadFails(source, ts) then Some(ReadFailed) else None
  {
    match source {
      case Mock(messages) =>
        if messages.None? { return init, Some(ReadFailed); }
        if |messages.value| == 0 { return init, None; }
        var (t, ok) := visit(init, messages.value);
        assert Feed(visit, t, []) == (t, true);
        return t, if ok then None else Some(Refused);
      case Gmail(pages) =>
        s, stop := IteratePages(pages, visit, init, ts);
    }
  }

  // ----- ListMessages ---------------------------------------------------------------

  function Concat(batches: seq<seq<Message>>): seq<Message> {
    if batches == [] then [] else batches[0] + Concat(batches[1..])
  }

  lemma ConcatOne(batch: seq<Message>)
    ensures Concat([batch]) == batch
  {
    assert [batch][1..] == [];
    assert batch + Concat([]) == batch;
  }

  function Collect(seen: seq<Message>, batch: seq<Message>): (seq<Message>, bool) { (seen + batch, true) }

  lemma {:induction false} CollectedIsConcat(seen: seq<Message>, batches: seq<seq<Message>>)
    ensures Feed(Collect, seen, batches) == (seen + Concat(batches), true)
    decreases batches
  {
    if batches == [] {
      assert seen + Concat(batches) == seen;
    } else {
      CollectedIsConcat(seen + batches[0], batches[1..]);
      assert seen + batches[0] + Concat(batches[1..]) == seen + Concat(batches);
    }
  }

  /** Asked for from the empty token on, each page but the last names the next one, whatever it holds, and the
      last one names none, or itself. */
  ghost predicate AllPages(pages: string -> Reply, ts: seq<string>) {
    && |ts| > 0 && ts[0] == ""
    && (forall i :: 0 <= i < |ts| - 1 ==> NamesNext(pages, ts, i))
    && pages(ts[|ts| - 1]).Page?
    && (pages(ts[|ts| - 1]).next == "" || pages(ts[|ts| - 1]).next == ts[|ts| - 1])
  }

  predicate NamesNext(pages: string -> Reply, ts: seq<string>, i: nat)
    requires i + 1 < |ts|
  {
    pages(ts[i]).Page? && pages(ts[i]).next == ts[i + 1] && ts[i + 1] != "" && ts[i + 1] != ts[i]
  }

  /** All messages in order, or the failure. From Gmail these are the messages of every page. */
  method ListMessages(source: Source, ghost ts: seq<string>) returns (r: Result<seq<Message>, Stop>)
    requires source.Gmail? ==> Chain(source.pages, "", ts)
    ensures r == if ReadFails(source, ts) then Err(ReadFailed) else Ok(Concat(Offered(source, ts)))
    ensures r.Ok? && source.Gmail? ==> AllPages(source.pages, ts) && r.value == AllItems(source.pages, ts)
    ensures r.Ok? && source.Mock? ==> source.messages == Some(r.value)
  {
    if source.Gmail? {
      NoPageIsLost(source.pages, ts);
      forall i | 0 <= i < |ts| - 1 ensures NamesNext(source.pages, ts, i) {
        assert !Last(ts[i], source.pages(ts[i]));
      }
    }
    if source.Mock? && source.messages.Some? { ConcatOne(source.messages.value); }
    CollectedIsConcat([], Offered(source, ts));
    assert [] + Concat(Offered(source, ts)) == Concat(Offered(source, ts));
    var result, stop := IterateMessages(source, Collect, [], ts);
    if stop.Some? { return Err(stop.value); }
    return Ok(result);
  }

  // ----- the visits ---------------------------------------------------------------------

  function Record(seen: seq<seq<Message>>, batch: seq<Message>): (seq<seq<Message>>, bool) { (seen + [batch], true) }

  /** Each non-empty page is visited exactly once, in order: a visitor that records its batches ends up
      with exactly the batches there were. */
  lemma {:induction false} EachBatchOnce(seen: seq<seq<Message>>, batches: seq<seq<Message>>)
    ensures Feed(Record, seen, batches) == (seen + batches, true)
    decreases batches
  {
    if batches == [] {
      assert seen + batches == seen;
    } else {
      EachBatchOnce(seen + [batches[0]], batches[1..]);
      assert seen + [batches[0]] + batches[1..] == seen + batches;
    }
  }

  /** Empty pages in the middle are skipped without stopping: the messages listed are those of every
      page of the chain, in order. */
  lemma {:induction false} NoPageIsLost(pages: string -> Reply, ts: seq<string>)
    ensures Concat(Batches(pages, ts)) == AllItems(pages, ts)
  {
    if ts != [] {
      NoPageIsLost(pages, ts[1..]);
      var rest := Batches(pages, ts[1..]);
      var head := BatchOf(pages(ts[0]));
      if head == [] {
        assert head + rest == rest;
      } else {
        assert (head + rest)[1..] == rest;
      }
    }
  }

  /** The messages of all pages along the tokens. */
  function AllItems(pages: string -> Reply, ts: seq<string>): seq<Message> {
    if ts == [] then []
    else (if pages(ts[0]).Page? then Batch(pages(ts[0]).items) else []) + AllItems(pages, ts[1..])
  }

  // ----- when the loop ends -----------------------------------------------------------------

  /** No token comes twice along a chain that ends. */
  lemma {:induction false} ChainIsAcyclic(pages: string -> Reply, token: string, ts: seq<string>, i: nat, j: nat)
    requires Chain(pages, token, ts) && i < j < |ts|
    ensures ts[i] != ts[j]
    decreases |ts| - j
  {
    if ts[i] == ts[j] && j < |ts| - 1 {
      ChainIsAcyclic(pages, token, ts, i + 1, j + 1);
    }
  }

  /** There is one way to go on, so a chain is determined by where it starts. */
  lemma {:induction false} ChainIsUnique(pages: string -> Reply, token: string, a: seq<string>, b: seq<string>)
    requires Chain(pages, token, a) && Chain(pages, token, b)
    ensures a == b
    decreases a
  {
    if |a| == 1 || |b| == 1 {
    } else {
      ChainIsUnique(pages, a[1], a[1..], b[1..]);
      assert a == [a[0]] + a[1..] && b == [b[0]] + b[1..];
    }
  }

  /** The token asked for after `n` pages, starting from `token`; None once the loop has ended. */
  function Asked(pages: string -> Reply, token: string, n: nat): Option<string> {
    if n == 0 then Some(token)
    else
      match Asked(pages, token, n - 1)
      case None => None
      case Some(t) => if Last(t, pages(t)) then None else Some(pages(t).next)
  }

  /** Some token is asked for twice. */
  ghost predicate Revisits(pages: string -> Reply, token: string) {
    exists i: nat, j: nat :: i < j && Asked(pages, token, i).Some? && Asked(pages, token, i) == Asked(pages, token, j)
  }

  /** The tokens the mailbox hands out. */
  ghost predicate ClosedUnderNext(pages: string -> Reply, tokens: set<string>) {
    forall t :: t in tokens && !Last(t, pages(t)) ==> pages(t).next in tokens
  }

  /** A chain holds the tokens asked for, and after it none is. */
  lemma {:induction false} ChainIsAsked(pages: string -> Reply, token: string, ts: seq<string>, n: nat)
    requires Chain(pages, token, ts)
    ensures Asked(pages, token, n) == if n < |ts| then Some(ts[n]) else None
  {
    if n > 0 { ChainIsAsked(pages, token, ts, n - 1); }
  }

  lemma {:induction false} AskedInTokens(pages: string -> Reply, token: string, tokens: set<string>, n: nat)
    requires ClosedUnderNext(pages, tokens) && token in tokens
    ensures Asked(pages, token, n).Some? ==> Asked(pages, token, n).value in tokens
  {
    if n > 0 { AskedInTokens(pages, token, tokens, n - 1); }
  }

  /** If the loop has not ended after `n` pages, it had not before. */
  lemma {:induction false} AskedBefore(pages: string -> Reply, token: string, m: nat, n: nat)
    requires m <= n && Asked(pages, token, n).Some?
    ensures Asked(pages, token, m).Some?
    decreases n
  {
    if m < n { AskedBefore(pages, token, m, n - 1); }
  }

  /** The tokens asked for first, as long as the loop goes on. */
  function AskedUpTo(pages: string -> Reply, token: string, n: nat): (r: seq<string>)
    requires forall i: nat :: i < n ==> Asked(pages, token, i).Some?
    ensures |r| == n && forall i :: 0 <= i < n ==> Some(r[i]) == Asked(pages, token, i)
  {
    if n == 0 then [] else AskedUpTo(pages, token, n - 1) + [Asked(pages, token, n - 1).value]
  }

  /** Among finitely many tokens the loop ends or comes back to one. */
  lemma EndsOrRevisits(pages: string -> Reply, token: string, tokens: set<string>)
    requires ClosedUnderNext(pages, tokens) && token in tokens && !Revisits(pages, token)
    ensures Asked(pages, token, |tokens|).None?
  {
    var n := |tokens| + 1;
    if Asked(pages, token, |tokens|).Some? {
      forall i: nat | i < n ensures Asked(pages, token, i).Some? { AskedBefore(pages, token, i, |tokens|); }
      var ts := AskedUpTo(pages, token, n);
      forall i, j | 0 <= i < j < n ensures ts[i] != ts[j] {
        assert Asked(pages, token, i) == Asked(pages, token, j) ==> Revisits(pages, token);
      }
      DistinctCount(ts);
      forall t | t in ts ensures t in tokens {
        var i :| 0 <= i < n && ts[i] == t;
        AskedInTokens(pages, token, tokens, i);
      }
      var inside := set t | t in ts;
      SubsetCount(inside, tokens);
    }
  }

  lemma {:induction false} EndsInChain(pages: string -> Reply, token: string, n: nat) returns (ts: seq<string>)
    requires Asked(pages, token, n).None?
    ensures Chain(pages, token, ts)
  {
    if Asked(pages, token, n - 1).None? {
      ts := EndsInChain(pages, token, n - 1);
    } else {
      forall i: nat | i < n ensures Asked(pages, token, i).Some? { AskedBefore(pages, token, i, n - 1); }
      ts := AskedUpTo(pages, token, n);
      forall i | 0 <= i < n - 1 ensures !Last(ts[i], pages(ts[i])) && ts[i + 1] == pages(ts[i]).next {
        assert Asked(pages, token, i + 1) == Some(ts[i + 1]) && Asked(pages, token, i) == Some(ts[i]);
      }
      assert Asked(pages, token, n - 1) == Some(ts[n - 1]);
    }
  }

  /** The tokens asked for form a chain if and only if none is asked for twice, where the mailbox hands out
      finitely many. */
  lemma ChainUnlessRevisiting(pages: string -> Reply, token: string, tokens: set<string>)
    requires ClosedUnderNext(pages, tokens) && token in tokens
    ensures (exists ts :: Chain(pages, token, ts)) <==> !Revisits(pages, token)
  {
    if ts :| Chain(pages, token, ts) {
      forall i: nat, j: nat | i < j && Asked(pages, token, i).Some?
        ensures Asked(pages, token, i) != Asked(pages, token, j)
      {
        ChainIsAsked(pages, token, ts, i);
        ChainIsAsked(pages, token, ts, j);
        if j < |ts| { ChainIsAcyclic(pages, token, ts, i, j); }
      }
    }
    if !Revisits(pages, token) {
      EndsOrRevisits(pages, token, tokens);
      var ts := EndsInChain(pages, token, |tokens|);
    }
  }

  /** When the page loop ends, for any visitor: where the mailbox hands out finitely many tokens it ends if and
      only if no token is asked for twice or the visitor refuses a page. The loop itself notices a repetition
      only at once. */
  lemma EndsUnlessRevisiting<S(!new)>(pages: string -> Reply, visit: (S, seq<Message>) -> (S, bool), init: S,
                                      token: string, tokens: set<string>)
    requires ClosedUnderNext(pages, tokens) && token in tokens
    ensures (exists ts :: Stops(pages, visit, init, token, ts)) <==>
      !Revisits(pages, token) || exists ts :: Refuses(pages, visit, init, token, ts)
  {
    ChainUnlessRevisiting(pages, token, tokens);
    if ts :| Chain(pages, token, ts) { assert Stops(pages, visit, init, token, ts); }
    if ts :| Refuses(pages, visit, init, token, ts) { assert Stops(pages, visit, init, token, ts); }
  }

  /** A visitor that takes every page refuses none, so its loop ends if and only if no token is asked for twice. */
  lemma {:induction false} WillingIsFed<S(!new)>(visit: (S, seq<Message>) -> (S, bool), s: S,
                                                 batches: seq<seq<Message>>)
    requires forall x, b :: visit(x, b).1
    ensures Feed(visit, s, batches).1
    decreases batches
  {
    if batches != [] { WillingIsFed(visit, visit(s, batches[0]).0, batches[1..]); }
  }
}
