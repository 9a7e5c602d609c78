/** The manager of src/memory.rs, as an object that owns one page table per agent. */
module ContextMemory {
  import opened Common
  import opened PageTable

  datatype MemoryError = EmptyName | ZeroTokens | ZeroLimit | NotJson | UnknownAgent | UnknownPage | ClockBeforeEpoch

  class ContextMemoryManager {
    var tables: map<string, Table>
    const defaultMax: Word
    const isJson: string -> bool

    /** `isJson` says which strings are JSON documents. */
    constructor (max: Word, isJson: string -> bool)
      requires max != 0
      ensures tables == map[] && defaultMax == max && this.isJson == isJson
    {
      tables := map[];
      defaultMax := max;
      this.isJson := isJson;
    }

    /** A manager with a default limit; a limit of zero is refused. */
    static method Create(max: Word, isJson: string -> bool) returns (r: Result<ContextMemoryManager, MemoryError>)
      ensures r.Ok? <==> max != 0
      ensures r.Err? ==> r.error == ZeroLimit
      ensures r.Ok? ==> fresh(r.value) && r.value.tables == map[] && r.value.defaultMax == max && r.value.isJson == isJson
    {
      if max == 0 { return Err(ZeroLimit); }
      var manager := new ContextMemoryManager(max, isJson);
      r := Ok(manager);
    }

    /** Registering again starts with an empty table. */
    method RegisterAgent(name: string, max: Word) returns (r: Result<(), MemoryError>)
      modifies this
      ensures r == if name == "" then Err(EmptyName) else if max == 0 then Err(ZeroLimit) else Ok(())
      ensures tables == if r.Ok? then old(tables)[name := NewTable(name, max)] else old(tables)
    {
      if name == "" { return Err(EmptyName); }
      if max == 0 { return Err(ZeroLimit); }
      tables := tables[name := NewTable(name, max)];
      r := Ok(());
    }

    method UnregisterAgent(name: string) returns (known: bool)
      modifies this
      ensures known == (name in old(tables)) && tables == old(tables) - {name}
    {
      known := name in tables;
      tables := tables - {name};
    }

    /** The table of `name` before an append; an unknown agent gets the default limit. */
    function Entry(name: string): Table
      reads this
    {
      if name in tables then tables[name] else NewTable(name, defaultMax)
    }

    /**
      Appends a page. A clock before the epoch fails after the agent's table has been made;
      every other error leaves the manager as it was.
    */
    method AppendContextFrame(name: string, content: string, tokens: Word, millis: nat, seconds: Option<nat>)
      returns (r: Result<bool, MemoryError>)
      modifies this
      ensures r.Err? ==> r.error == if name == "" then EmptyName else if tokens == 0 then ZeroTokens
                                    else if !isJson(content) then NotJson else ClockBeforeEpoch
      ensures r.Ok? <==> name != "" && tokens != 0 && isJson(content) && seconds.Some?
      ensures r.Ok? ==> (tables, r.value) == (old(tables)[name := Append(old(Entry(name)), content, tokens, millis, seconds.value).0],
                                              Append(old(Entry(name)), content, tokens, millis, seconds.value).1)
      ensures r == Err(ClockBeforeEpoch) ==> tables == old(tables)[name := old(Entry(name))]
      ensures r.Err? && r.error != ClockBeforeEpoch ==> tables == old(tables)
    {
      if name == "" { return Err(EmptyName); }
      if tokens == 0 { return Err(ZeroTokens); }
      if !isJson(content) { return Err(NotJson); }
      var t := Entry(name);
      if seconds.None? {
        tables := tables[name := t];
        return Err(ClockBeforeEpoch);
      }
      var page := Page(PageId(t.agent, millis, |t.pages|), seconds.value, tokens, Text(content), false);
      t := t.(current := Plus(t.current, tokens), pages := t.pages + [page]);
      var over := t.current > t.max;
      if over {
        t := ExecutePageOut(t);
      }
      tables := tables[name := t];
      r := Ok(over);
    }

    method PageInFrame(name: string, id: PageId, content: string) returns (r: Result<(), MemoryError>)
      modifies this
      ensures r == if !isJson(content) then Err(NotJson) else if name !in old(tables) then Err(UnknownAgent)
                   else if PageIn(old(tables)[name], id, content).None? then Err(UnknownPage) else Ok(())
      ensures tables == if r.Ok? then old(tables)[name := PageIn(old(tables)[name], id, content).value] else old(tables)
    {
      if !isJson(content) { return Err(NotJson); }
      if name !in tables { return Err(UnknownAgent); }
      var t := tables[name];
      var i := 0;
      while i < |t.pages| && t.pages[i].id != id
        invariant i <= |t.pages| && Find(t.pages, id) == i + Find(t.pages[i..], id)
      {
        assert t.pages[i..][1..] == t.pages[i + 1..];
        i := i + 1;
      }
      if i == |t.pages| { return Err(UnknownPage); }
      if t.pages[i].pagedOut {
        t := t.(current := Plus(t.current, t.pages[i].tokens));
      }
      t := t.(pages := t.pages[i := t.pages[i].(content := Text(content), pagedOut := false)]);
      if t.current > t.max {
        t := ExecutePageOut(t);
      }
      tables := tables[name := t];
      r := Ok(());
    }

    /** Hands out the pending evictions, once. */
    method TakeEvictedPages(name: string) returns (r: Result<seq<Page>, MemoryError>)
      modifies this
      ensures r == if name in old(tables) then Ok(Take(old(tables)[name]).1) else Err(UnknownAgent)
      ensures tables == if r.Ok? then old(tables)[name := Take(old(tables)[name]).0] else old(tables)
    {
      if name !in tables { return Err(UnknownAgent); }
      r := Ok(tables[name].pending);
      tables := tables[name := tables[name].(pending := [])];
    }
  }

  /** What a page-out still does after the first pages have been seen. */
  function Onward(seen: seq<Page>, evicted: seq<Page>, rest: PageOut): PageOut {
    PageOut(seen + rest.pages, rest.current, evicted + rest.evicted)
  }

  /** One page of a page-out. */
  lemma PageOutStep(seen: seq<Page>, evicted: seq<Page>, pages: seq<Page>, current: Word, target: Word)
    requires pages != [] && current > target
    ensures var p := pages[0];
            Onward(seen, evicted, Execute(pages, current, target))
              == if p.pagedOut then Onward(seen + [p], evicted, Execute(pages[1..], current, target))
                 else Onward(seen + [Replaced(p)], evicted + [Evicted(p)],
                             Execute(pages[1..], SaturatingMinus(current, p.tokens), target))
  {
  }

  /** Goes over the pages of a table that is over its limit, and adds what goes out to its pending evictions. */
  method ExecutePageOut(t: Table) returns (u: Table)
    requires t.current > t.max
    ensures u == Settle(t)
  {
    hide Execute, Target, SaturatingMinus, Replaced, Evicted;
    var target := Target(t.max);
    var pages, current, evicted := t.pages, t.current, [];
    ghost var whole := Execute(t.pages, t.current, target);
    var i := 0;
    assert t.pages[0..] == t.pages;
    while i < |pages| && current > target
      invariant i <= |pages| == |t.pages| && pages[i..] == t.pages[i..]
      invariant whole == Onward(pages[..i], evicted, Execute(t.pages[i..], current, target))
    {
      var page := pages[i];
      assert page == pages[i..][0] && t.pages[i..][1..] == t.pages[i + 1..];
      PageOutStep(pages[..i], evicted, t.pages[i..], current, target);
      if !page.pagedOut {
        current := SaturatingMinus(current, page.tokens);
        pages := pages[i := Replaced(page)];
        evicted := evicted + [Evicted(page)];
      }
      assert pages[..i + 1] == pages[..i] + [pages[i]];
      i := i + 1;
    }
    PageOutEnds(t.pages[i..], current, target);
    assert pages == pages[..i] + pages[i..];
    u := t.(pages := pages, current := current, pending := t.pending + evicted);
  }

  lemma PageOutEnds(pages: seq<Page>, current: Word, target: Word)
    requires pages == [] || current <= target
    ensures Execute(pages, current, target) == PageOut(pages, current, [])
  {
  }
}
