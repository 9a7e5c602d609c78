/**
  The page table of src/memory.rs: token accounting, oldest-first page-out, page-in.
  Token counts are 64-bit machine words: additions wrap around.
*/
module PageTable {
  import opened Common

  const WORD: nat := 0x1_0000_0000_0000_0000

  type Word = n: nat | n < WORD

  /** A page id, made of the agent, the clock in milliseconds and the index at creation. */
  datatype PageId = PageId(agent: string, millis: nat, index: nat)

  /** What a page holds: its text, or the note that replaces it while it is paged out. */
  datatype Content = Text(json: string) | Note(page: PageId, tokens: Word)

  datatype Page = Page(id: PageId, timestamp: nat, tokens: Word, content: Content, pagedOut: bool)

  datatype Table = Table(agent: string, max: Word, current: Word, pages: seq<Page>, pending: seq<Page>)

  function Plus(a: Word, b: Word): Word {
    (a + b) % WORD
  }

  function SaturatingMinus(a: Word, b: Word): Word {
    if a < b then 0 else a - b
  }

  /** The level that a page-out aims at. */
  function Target(max: Word): Word {
    (max * 7) % WORD / 10
  }

  // ----- Page-out -----

  datatype PageOut = PageOut(pages: seq<Page>, current: Word, evicted: seq<Page>)

  function Evicted(p: Page): Page {
    p.(pagedOut := true)
  }

  function Replaced(p: Page): Page {
    p.(pagedOut := true, content := Note(p.id, p.tokens))
  }

  /** Pages out active pages, the oldest first, until the count is at the target. */
  function Execute(pages: seq<Page>, current: Word, target: Word): PageOut {
    if pages == [] || current <= target then PageOut(pages, current, [])
    else if pages[0].pagedOut then
      var rest := Execute(pages[1..], current, target);
      rest.(pages := [pages[0]] + rest.pages)
    else
      var rest := Execute(pages[1..], SaturatingMinus(current, pages[0].tokens), target);
      PageOut([Replaced(pages[0])] + rest.pages, rest.current, [Evicted(pages[0])] + rest.evicted)
  }

  /** Pages out when the count is over the limit. */
  function Settle(t: Table): Table {
    if t.current <= t.max then t
    else
      var out := Execute(t.pages, t.current, Target(t.max));
      t.(pages := out.pages, current := out.current, pending := t.pending + out.evicted)
  }

  // ----- Operations on one table -----

  function NewTable(agent: string, max: Word): Table {
    Table(agent, max, 0, [], [])
  }

  /** Appends a page; the flag says whether pages went out. */
  function Append(t: Table, content: string, tokens: Word, millis: nat, seconds: nat): (Table, bool) {
    var page := Page(PageId(t.agent, millis, |t.pages|), seconds, tokens, Text(content), false);
    var t1 := t.(current := Plus(t.current, tokens), pages := t.pages + [page]);
    (Settle(t1), t1.current > t1.max)
  }

  function Find(pages: seq<Page>, id: PageId): (i: nat)
    ensures i <= |pages| && (i < |pages| ==> pages[i].id == id)
    ensures forall j | 0 <= j < i :: pages[j].id != id
  {
    if pages == [] || pages[0].id == id then 0 else 1 + Find(pages[1..], id)
  }

  /** Makes a page active again, with the given content. An active page only gets the content. */
  function PageIn(t: Table, id: PageId, content: string): Option<Table> {
    var i := Find(t.pages, id);
    if i == |t.pages| then None
    else
      var p := t.pages[i];
      var current := if p.pagedOut then Plus(t.current, p.tokens) else t.current;
      Some(Settle(t.(current := current, pages := t.pages[i := p.(content := Text(content), pagedOut := false)])))
  }

  function Take(t: Table): (Table, seq<Page>) {
    (t.(pending := []), t.pending)
  }

  // ----- Token accounting -----

  /** The tokens of the active pages. */
  function ActiveTokens(pages: seq<Page>): nat {
    if pages == [] then 0 else (if pages[0].pagedOut then 0 else pages[0].tokens) + ActiveTokens(pages[1..])
  }

  predicate Counted(t: Table) {
    t.current == ActiveTokens(t.pages)
  }

  lemma {:induction false} ActiveSplit(a: seq<Page>, b: seq<Page>)
    ensures ActiveTokens(a + b) == ActiveTokens(a) + ActiveTokens(b)
    decreases |a|
  {
    if a == [] {
      assert a + b == b;
    } else {
      assert (a + b)[1..] == a[1..] + b;
      ActiveSplit(a[1..], b);
    }
  }

  lemma ActiveUpdate(pages: seq<Page>, i: nat, p: Page)
    requires i < |pages|
    ensures ActiveTokens(pages[i := p])
         == ActiveTokens(pages) - (if pages[i].pagedOut then 0 else pages[i].tokens) + (if p.pagedOut then 0 else p.tokens)
  {
    assert pages == pages[..i] + ([pages[i]] + pages[i + 1..]);
    assert pages[i := p] == pages[..i] + ([p] + pages[i + 1..]);
    ActiveSplit(pages[..i], [pages[i]] + pages[i + 1..]);
    ActiveSplit(pages[..i], [p] + pages[i + 1..]);
    ActiveSplit([pages[i]], pages[i + 1..]);
    ActiveSplit([p], pages[i + 1..]);
  }

  // ----- What a page-out does -----

  /** The first `k` pages are out, the others untouched. */
  function OutBefore(pages: seq<Page>, k: nat): seq<Page>
    requires k <= |pages|
    decreases k
  {
    if k == 0 then pages
    else
      var p := pages[0];
      [if p.pagedOut then p else Page(p.id, p.timestamp, p.tokens, Note(p.id, p.tokens), true)] + OutBefore(pages[1..], k - 1)
  }

  /** The active ones of the first `k` pages, as they are handed to the caller. */
  function EvictedBefore(pages: seq<Page>, k: nat): seq<Page>
    requires k <= |pages|
    decreases k
  {
    if k == 0 then []
    else
      var p := pages[0];
      (if p.pagedOut then [] else [Page(p.id, p.timestamp, p.tokens, p.content, true)]) + EvictedBefore(pages[1..], k - 1)
  }

  /**
    `k` is the cut of a page-out: the active pages before it go, the rest fits the target,
    and the last of them was still needed.
  */
  predicate Cut(pages: seq<Page>, target: nat, k: nat) {
    && k <= |pages| && ActiveTokens(pages[k..]) <= target
    && (k > 0 ==> !pages[k - 1].pagedOut && ActiveTokens(pages[k - 1..]) > target)
  }

  /**
    A page-out evicts the shortest oldest-first run of active pages that brings the count to
    the target. The count stays exact, so the subtraction never saturates.
  */
  lemma {:induction false} PageOutShortest(pages: seq<Page>, current: Word, target: Word) returns (k: nat)
    requires current == ActiveTokens(pages)
    ensures Cut(pages, target, k)
    ensures Execute(pages, current, target) == PageOut(OutBefore(pages, k), ActiveTokens(pages[k..]), EvictedBefore(pages, k))
    decreases |pages|
  {
    if pages == [] || current <= target {
      k := 0;
      assert pages[0..] == pages;
    } else if pages[0].pagedOut {
      k := PageOutShortest(pages[1..], current, target);
      k := k + 1;
      assert pages[k..] == pages[1..][k - 1..];
      assert k > 1 ==> pages[k - 1..] == pages[1..][k - 2..];
      assert pages[1..][0..] == pages[1..];
    } else {
      k := PageOutShortest(pages[1..], current - pages[0].tokens, target);
      k := k + 1;
      assert pages[k..] == pages[1..][k - 1..];
      assert k > 1 ==> pages[k - 1..] == pages[1..][k - 2..];
      assert pages[0..] == pages;
    }
  }

  /** There is only one cut. */
  lemma CutUnique(pages: seq<Page>, target: nat, a: nat, b: nat)
    requires Cut(pages, target, a) && Cut(pages, target, b)
    ensures a == b
  {
    if a < b {
      CutShorter(pages, a, b - 1);
    } else if b < a {
      CutShorter(pages, b, a - 1);
    }
  }

  lemma CutShorter(pages: seq<Page>, a: nat, b: nat)
    requires a <= b <= |pages|
    ensures ActiveTokens(pages[b..]) <= ActiveTokens(pages[a..])
  {
    assert pages[a..] == pages[a..b] + pages[b..];
    ActiveSplit(pages[a..b], pages[b..]);
  }

  lemma {:induction false} OutBeforeCount(pages: seq<Page>, k: nat)
    requires k <= |pages|
    ensures |OutBefore(pages, k)| == |pages| && ActiveTokens(OutBefore(pages, k)) == ActiveTokens(pages[k..])
    ensures forall i | 0 <= i < |pages| ::
              OutBefore(pages, k)[i] == if i < k && !pages[i].pagedOut then Replaced(pages[i]) else pages[i]
    decreases k
  {
    if k == 0 {
      assert pages[0..] == pages;
    } else {
      OutBeforeCount(pages[1..], k - 1);
      assert pages[k..] == pages[1..][k - 1..];
      var head := if pages[0].pagedOut then pages[0] else Replaced(pages[0]);
      assert OutBefore(pages, k)[1..] == OutBefore(pages[1..], k - 1);
    }
  }

  /** The target is 70% of the limit, rounded down, exactly when seven times the limit fits a word. */
  lemma TargetExact(max: Word)
    ensures Target(max) == max * 7 / 10 <==> max * 7 < WORD
    ensures max * 7 < WORD ==> Target(max) <= max
  {
    if max * 7 >= WORD {
      var over := max * 7;
      assert over % WORD <= over - WORD;
      assert over % WORD / 10 <= (over - WORD) / 10 < over / 10;
    }
  }

  /** Settling keeps the count exact, and leaves it within the limit when the target is. */
  lemma SettleCounted(t: Table)
    requires Counted(t)
    ensures Counted(Settle(t)) && |Settle(t).pages| == |t.pages|
    ensures t.max * 7 < WORD ==> Settle(t).current <= t.max
    ensures t.current > t.max ==> Settle(t).current <= Target(t.max)
  {
    TargetExact(t.max);
    if t.current > t.max {
      var k := PageOutShortest(t.pages, t.current, Target(t.max));
      OutBeforeCount(t.pages, k);
    }
  }

  /**
    An append within the limits keeps the count exact if and only if the old count and the new
    page together fit a machine word; beyond that the count wraps around and no page goes out.
  */
  lemma AppendCounted(t: Table, content: string, tokens: Word, millis: nat, seconds: nat)
    requires Counted(t) && t.current <= t.max
    ensures Counted(Append(t, content, tokens, millis, seconds).0) <==> t.current + tokens < WORD
    ensures Append(t, content, tokens, millis, seconds).1 <==> t.max < t.current + tokens < WORD
    ensures t.max * 7 < WORD ==> Append(t, content, tokens, millis, seconds).0.current <= t.max
  {
    var page := Page(PageId(t.agent, millis, |t.pages|), seconds, tokens, Text(content), false);
    var t1 := t.(current := Plus(t.current, tokens), pages := t.pages + [page]);
    ActiveSplit(t.pages, [page]);
    assert ActiveTokens([page]) == tokens;
    if t.current + tokens < WORD {
      assert Counted(t1);
      SettleCounted(t1);
    } else {
      assert t1.current == t.current + tokens - WORD;
    }
  }

  /**
    Page-in keeps the count exact if and only if the page was active or fits a word beside the
    active ones; otherwise the count wraps around and no page goes out.
  */
  lemma PageInCounted(t: Table, id: PageId, content: string)
    requires Counted(t) && t.current <= t.max && PageIn(t, id, content).Some?
    ensures var p, u := t.pages[Find(t.pages, id)], PageIn(t, id, content).value;
            && (Counted(u) <==> !p.pagedOut || t.current + p.tokens < WORD)
            && (p.pagedOut && t.current + p.tokens >= WORD ==> u.pending == t.pending)
            && (t.max * 7 < WORD ==> u.current <= t.max)
  {
    var i := Find(t.pages, id);
    var p := t.pages[i];
    ActiveUpdate(t.pages, i, p.(content := Text(content), pagedOut := false));
    var t1 := t.(current := if p.pagedOut then Plus(t.current, p.tokens) else t.current,
                 pages := t.pages[i := p.(content := Text(content), pagedOut := false)]);
    if !p.pagedOut || t.current + p.tokens < WORD {
      SettleCounted(t1);
    } else {
      assert t1.current == t.current + p.tokens - WORD;
    }
  }

  // ----- Runs -----

  datatype Op =
    | AppendOp(content: string, tokens: Word, millis: nat, seconds: nat)
    | PageInOp(id: PageId, content: string)
    | TakeOp

  /** A table, the evictions already handed out, and the content each page last had while active. */
  datatype History = History(table: Table, taken: seq<Page>, last: seq<string>)

  function Step(h: History, op: Op): History {
    match op
    case AppendOp(content, tokens, millis, seconds) =>
      History(Append(h.table, content, tokens, millis, seconds).0, h.taken, h.last + [content])
    case PageInOp(id, content) =>
      (match PageIn(h.table, id, content)
       case None => h
       case Some(t) =>
         var i := Find(h.table.pages, id);
         History(t, h.taken, if i < |h.last| then h.last[i := content] else h.last))
    case TakeOp => var (t, pages) := Take(h.table); History(t, h.taken + pages, h.last)
  }

  /** No count leaves the machine word. */
  predicate Fits(h: History, op: Op) {
    match op
    case AppendOp(_, tokens, _, _) => tokens > 0 && h.table.current + tokens < WORD
    case PageInOp(id, _) =>
      var i := Find(h.table.pages, id);
      i < |h.table.pages| ==> h.table.current + h.table.pages[i].tokens < WORD
    case TakeOp => true
  }

  /** Page `i` was created as page number `i` of its agent. */
  predicate Identified(t: Table) {
    forall i | 0 <= i < |t.pages| :: t.pages[i].id.index == i && t.pages[i].id.agent == t.agent
  }

  function Log(h: History): seq<Page> {
    h.taken + h.table.pending
  }

  /** The last eviction of a page. */
  function LastEviction(log: seq<Page>, id: PageId): Option<Page>
    decreases |log|
  {
    if log == [] then None
    else if log[|log| - 1].id == id then Some(log[|log| - 1])
    else LastEviction(log[..|log| - 1], id)
  }

  /** The page as it was while it was last active. */
  function LastActive(p: Page, content: string): Page {
    p.(content := Text(content), pagedOut := false)
  }

  /** An active page has its last content; a paged-out one left it in the last eviction of its id. */
  predicate Kept(h: History, i: nat)
    requires i < |h.table.pages| == |h.last|
  {
    var p := h.table.pages[i];
    if p.pagedOut
    then p.content == Note(p.id, p.tokens) && LastEviction(Log(h), p.id) == Some(Page(p.id, p.timestamp, p.tokens, Text(h.last[i]), true))
    else p.content == Text(h.last[i])
  }

  predicate Sound(h: History) {
    && Counted(h.table) && h.table.current <= h.table.max && h.table.max * 7 < WORD
    && Identified(h.table) && |h.last| == |h.table.pages|
    && forall i | 0 <= i < |h.last| :: Kept(h, i)
  }

  lemma {:induction false} LastInAppend(a: seq<Page>, b: seq<Page>, id: PageId)
    ensures LastEviction(a + b, id) == if LastEviction(b, id).Some? then LastEviction(b, id) else LastEviction(a, id)
    decreases |b|
  {
    if b == [] {
      assert a + b == a;
    } else {
      assert (a + b)[..|a + b| - 1] == a + b[..|b| - 1];
      LastInAppend(a, b[..|b| - 1], id);
    }
  }

  lemma {:induction false} EvictedFind(pages: seq<Page>, k: nat, i: nat)
    requires k <= |pages| && i < |pages|
    requires forall a, b | 0 <= a < b < |pages| :: pages[a].id != pages[b].id
    ensures LastEviction(EvictedBefore(pages, k), pages[i].id)
         == if i < k && !pages[i].pagedOut then Some(Evicted(pages[i])) else None
    decreases k
  {
    if k > 0 {
      var head := if pages[0].pagedOut then [] else [Evicted(pages[0])];
      LastInAppend(head, EvictedBefore(pages[1..], k - 1), pages[i].id);
      assert head != [] ==> head[..0] == [];
      if i > 0 {
        EvictedFind(pages[1..], k - 1, i - 1);
      } else {
        NotEvicted(pages[1..], k - 1, pages[0].id);
      }
    }
  }

  lemma {:induction false} NotEvicted(pages: seq<Page>, k: nat, id: PageId)
    requires k <= |pages| && forall p | p in pages :: p.id != id
    ensures LastEviction(EvictedBefore(pages, k), id) == None
    decreases k
  {
    if k > 0 {
      var head := if pages[0].pagedOut then [] else [Evicted(pages[0])];
      assert forall p | p in pages[1..] :: p in pages;
      LastInAppend(head, EvictedBefore(pages[1..], k - 1), id);
      assert head != [] ==> head[..0] == [];
      assert pages[0] in pages;
      NotEvicted(pages[1..], k - 1, id);
    }
  }

  /** What holds just before a page-out, which may be due. */
  predicate Unsettled(h: History) {
    && Counted(h.table) && h.table.max * 7 < WORD
    && Identified(h.table) && |h.last| == |h.table.pages|
    && forall i | 0 <= i < |h.last| :: Kept(h, i)
  }

  /** A page-out keeps every page's last content: in place, or in the pending evictions. */
  lemma SettleKeeps(h: History)
    requires Unsettled(h)
    ensures Sound(h.(table := Settle(h.table)))
    ensures forall i | 0 <= i < |h.last| ::
              var p, q := h.table.pages[i], Settle(h.table).pages[i];
              q == p || (!p.pagedOut && q == Page(p.id, p.timestamp, p.tokens, Note(p.id, p.tokens), true) &&
                         LastEviction(Log(h.(table := Settle(h.table))), p.id) == Some(Page(p.id, p.timestamp, p.tokens, p.content, true)))
  {
    var t := h.table;
    var g := h.(table := Settle(t));
    SettleCounted(t);
    if t.current > t.max {
      var k := PageOutShortest(t.pages, t.current, Target(t.max));
      var out := EvictedBefore(t.pages, k);
      OutBeforeCount(t.pages, k);
      assert Log(g) == Log(h) + out;
      forall i | 0 <= i < |h.last|
        ensures Kept(g, i)
        ensures t.pages[i].id == g.table.pages[i].id
        ensures i < k && !t.pages[i].pagedOut ==> LastEviction(Log(g), t.pages[i].id) == Some(Evicted(t.pages[i]))
      {
        EvictedFind(t.pages, k, i);
        LastInAppend(Log(h), out, t.pages[i].id);
        assert Kept(h, i);
      }
    }
  }

  lemma AppendKeeps(h: History, content: string, tokens: Word, millis: nat, seconds: nat)
    requires Sound(h) && tokens > 0 && h.table.current + tokens < WORD
    ensures Sound(Step(h, AppendOp(content, tokens, millis, seconds)))
  {
    var t := h.table;
    var page := Page(PageId(t.agent, millis, |t.pages|), seconds, tokens, Text(content), false);
    var g := History(t.(current := Plus(t.current, tokens), pages := t.pages + [page]), h.taken, h.last + [content]);
    ActiveSplit(t.pages, [page]);
    assert ActiveTokens([page]) == tokens;
    forall i | 0 <= i < |g.last|
      ensures Kept(g, i)
    {
      assert i < |h.last| ==> Kept(h, i);
    }
    SettleKeeps(g);
  }

  /** The table with page `i` active again, before anything goes out. */
  function Activated(h: History, i: nat, content: string): History
    requires i < |h.table.pages| == |h.last|
  {
    var p := h.table.pages[i];
    History(h.table.(current := if p.pagedOut then Plus(h.table.current, p.tokens) else h.table.current,
                     pages := h.table.pages[i := LastActive(p, content)]),
            h.taken, h.last[i := content])
  }

  lemma ActivatedUnsettled(h: History, i: nat, content: string)
    requires Sound(h) && i < |h.last| && h.table.current + h.table.pages[i].tokens < WORD
    ensures Unsettled(Activated(h, i, content))
  {
    var g := Activated(h, i, content);
    ActiveUpdate(h.table.pages, i, LastActive(h.table.pages[i], content));
    forall j | 0 <= j < |g.last|
      ensures Kept(g, j)
    {
      assert Kept(h, j);
    }
  }

  lemma StepKeeps(h: History, op: Op)
    requires Sound(h) && Fits(h, op)
    ensures Sound(Step(h, op))
  {
    match op
    case AppendOp(content, tokens, millis, seconds) => AppendKeeps(h, content, tokens, millis, seconds);
    case PageInOp(id, content) =>
      var i := Find(h.table.pages, id);
      if i < |h.table.pages| {
        ActivatedUnsettled(h, i, content);
        SettleKeeps(Activated(h, i, content));
      }
    case TakeOp =>
      var g := Step(h, op);
      assert Log(g) == Log(h);
      forall i | 0 <= i < |g.last|
        ensures Kept(g, i)
      {
        assert Kept(h, i);
      }
  }

  function Run(h: History, ops: seq<Op>): History
    decreases |ops|
  {
    if ops == [] then h else Run(Step(h, ops[0]), ops[1..])
  }

  predicate AllFit(h: History, ops: seq<Op>)
    decreases |ops|
  {
    ops == [] || (Fits(h, ops[0]) && AllFit(Step(h, ops[0]), ops[1..]))
  }

  lemma {:induction false} RunKeeps(h: History, ops: seq<Op>)
    requires Sound(h) && AllFit(h, ops)
    ensures Sound(Run(h, ops))
    decreases |ops|
  {
    hide Sound, Fits, Step;
    if ops != [] {
      StepKeeps(h, ops[0]);
      RunKeeps(Step(h, ops[0]), ops[1..]);
    }
  }

  /**
    Page table conservation: after every run from a new table whose counts fit a word, the
    token count is exact and within the limit, and each page's last active content is in
    place or in the last eviction of its id, pending or already taken.
  */
  lemma PagesConserved(agent: string, max: Word, ops: seq<Op>)
    requires max * 7 < WORD && AllFit(History(NewTable(agent, max), [], []), ops)
    ensures var h := Run(History(NewTable(agent, max), [], []), ops);
            && h.table.current == ActiveTokens(h.table.pages) && h.table.current <= h.table.max
            && |h.last| == |h.table.pages|
            && forall i | 0 <= i < |h.last| :: Kept(h, i)
  {
    RunKeeps(History(NewTable(agent, max), [], []), ops);
  }

  /** Same page, whatever it holds now. */
  predicate SamePage(p: Page, q: Page) {
    q.id == p.id && q.timestamp == p.timestamp && q.tokens == p.tokens
  }

  lemma SettleSamePages(t: Table)
    requires Counted(t)
    ensures |Settle(t).pages| == |t.pages| && forall i | 0 <= i < |t.pages| :: SamePage(t.pages[i], Settle(t).pages[i])
  {
    if t.current > t.max {
      var k := PageOutShortest(t.pages, t.current, Target(t.max));
      OutBeforeCount(t.pages, k);
    }
  }

  /** No operation changes what identifies a page; an append adds one, with the clock's times and the place it takes. */
  lemma PagesStay(h: History, op: Op)
    requires Sound(h) && Fits(h, op)
    ensures var t, u := h.table, Step(h, op).table;
            && |u.pages| == (if op.AppendOp? then |t.pages| + 1 else |t.pages|)
            && (forall i | 0 <= i < |t.pages| :: SamePage(t.pages[i], u.pages[i]))
            && (op.AppendOp? ==>
                  u.pages[|t.pages|].id == PageId(t.agent, op.millis, |t.pages|) && u.pages[|t.pages|].timestamp == op.seconds
                  && u.pages[|t.pages|].tokens == op.tokens)
  {
    var t := h.table;
    match op
    case AppendOp(content, tokens, millis, seconds) =>
      var page := Page(PageId(t.agent, millis, |t.pages|), seconds, tokens, Text(content), false);
      ActiveSplit(t.pages, [page]);
      assert ActiveTokens([page]) == tokens;
      SettleSamePages(t.(current := Plus(t.current, tokens), pages := t.pages + [page]));
    case PageInOp(id, content) =>
      var i := Find(t.pages, id);
      if i < |t.pages| {
        ActivatedUnsettled(h, i, content);
        SettleSamePages(Activated(h, i, content).table);
      }
    case TakeOp =>
  }

  /**
    Paging a page in with the content of its last eviction restores it exactly, unless the
    same call evicts it again; then that eviction has the content.
  */
  lemma PageInRestores(h: History, i: nat)
    requires Sound(h) && i < |h.table.pages| && h.table.pages[i].pagedOut
    requires h.table.current + h.table.pages[i].tokens < WORD
    ensures var p := h.table.pages[i];
            var evicted := LastEviction(Log(h), p.id);
            && evicted.Some? && evicted.value.content.Text? && PageIn(h.table, p.id, evicted.value.content.json).Some?
            && var g := History(PageIn(h.table, p.id, evicted.value.content.json).value, h.taken, h.last);
               Sound(g) &&
               (g.table.pages[i] == evicted.value.(pagedOut := false)
                || (g.table.pages[i] == p && LastEviction(Log(g), p.id) == evicted))
  {
    var p := h.table.pages[i];
    assert Kept(h, i);
    var content := LastEviction(Log(h), p.id).value.content.json;
    assert Find(h.table.pages, p.id) == i;
    assert h.last[i := content] == h.last;
    ActivatedUnsettled(h, i, content);
    SettleKeeps(Activated(h, i, content));
    assert Kept(Activated(h, i, content).(table := Settle(Activated(h, i, content).table)), i);
  }
}
