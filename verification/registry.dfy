/** The method registry and its builder. Registration is configuration: an
    invalid registration aborts start-up (a Go panic), modelled here as an
    error result carrying the panic text. */
module Registry {
  import opened Wrappers

  /** A registered handler; handlers are compared by identity only. */
  type HandlerId = nat

  /** One second of `time.Duration`, which counts nanoseconds. */
  const Second: int := 1_000_000_000

  /** The per-call deadline a fresh builder starts with. */
  const DefaultTimeout: int := 10 * Second

  const AddPanic: string := "jsonrpc: method name and function should not be empty"

  datatype Builder = Builder(timeout: int, methods: map<string, HandlerId>)

  /** The frozen registry the dispatcher reads. */
  datatype Manager = Manager(methods: map<string, HandlerId>, timeout: int)

  function NewManagerBuilder(): (b: Builder)
    ensures b.timeout == 10 * Second
    ensures |b.methods| == 0
  {
    Builder(DefaultTimeout, map[])
  }

  /** Replaces the per-call deadline and nothing else. */
  function SetTimeout(b: Builder, timeout: int): (r: Builder)
    ensures r.timeout == timeout
    ensures r.methods == b.methods
  {
    b.(timeout := timeout)
  }

  /** Registers `h` under `name`. An empty name or a nil handler is refused;
      otherwise the name now maps to `h` (replacing any earlier handler), every
      other entry is kept and the timeout is untouched. */
  function Add(b: Builder, name: string, h: Option<HandlerId>): (r: Result<Builder, string>)
    ensures r.Ok? <==> name != "" && h.Some?
    ensures r.Err? ==> r.error == AddPanic
    ensures r.Ok? ==> r.value.timeout == b.timeout
    ensures r.Ok? ==> r.value.methods.Keys == b.methods.Keys + {name}
    ensures r.Ok? ==> r.value.methods[name] == h.value
    ensures r.Ok? ==> forall k :: k in b.methods && k != name ==> r.value.methods[k] == b.methods[k]
  {
    if name == "" || h.None? then Err(AddPanic)
    else Ok(b.(methods := b.methods[name := h.value]))
  }

  /** Freezes the builder: the manager holds the same methods and timeout. */
  function Build(b: Builder): (m: Manager)
    ensures m.methods == b.methods && m.timeout == b.timeout
  {
    Manager(b.methods, b.timeout)
  }

  /** The handler registered under `name`, if any. */
  function Lookup(m: Manager, name: string): (h: Option<HandlerId>)
    ensures h.Some? <==> name in m.methods
    ensures h.Some? ==> h.value == m.methods[name]
  {
    if name in m.methods then Some(m.methods[name]) else None
  }

  /** Registering a name twice keeps only the second handler. */
  lemma LastRegistrationWins(b: Builder, name: string, h1: HandlerId, h2: HandlerId)
    requires name != ""
    ensures Add(Add(b, name, Some(h1)).value, name, Some(h2)) == Add(b, name, Some(h2))
  {
    var once := Add(b, name, Some(h2)).value;
    var twice := Add(Add(b, name, Some(h1)).value, name, Some(h2)).value;
    assert twice.methods == once.methods;
  }

  /** Registrations under different names do not interfere: their order does
      not matter. */
  lemma DistinctAddsCommute(b: Builder, n1: string, h1: HandlerId, n2: string, h2: HandlerId)
    requires n1 != "" && n2 != "" && n1 != n2
    ensures Add(Add(b, n1, Some(h1)).value, n2, Some(h2)) == Add(Add(b, n2, Some(h2)).value, n1, Some(h1))
  {
    var left := Add(Add(b, n1, Some(h1)).value, n2, Some(h2)).value;
    var right := Add(Add(b, n2, Some(h2)).value, n1, Some(h1)).value;
    assert left.methods == right.methods;
  }

  /** A chain of `Add` calls, stopping at the first refused registration. */
  function AddAll(b: Builder, regs: seq<(string, Option<HandlerId>)>): (r: Result<Builder, string>)
    ensures r.Ok? <==> forall i :: 0 <= i < |regs| ==> regs[i].0 != "" && regs[i].1.Some?
    ensures r.Ok? ==> r.value.timeout == b.timeout
    ensures r.Ok? && "" !in b.methods ==> "" !in r.value.methods
    decreases |regs|
  {
    if |regs| == 0 then Ok(b)
    else
      match Add(b, regs[0].0, regs[0].1)
      case Err(e) => Err(e)
      case Ok(b') => AddAll(b', regs[1..])
  }

  /** The handler of the last registration of `name` in `regs`, if any:
      the reference for what a chain of registrations leaves behind. */
  function LastRegistration(regs: seq<(string, Option<HandlerId>)>, name: string): Option<HandlerId>
    decreases |regs|
  {
    if |regs| == 0 then None
    else if regs[|regs| - 1].0 == name then regs[|regs| - 1].1
    else LastRegistration(regs[..|regs| - 1], name)
  }

  /** After any accepted chain of registrations, a name is registered exactly
      when the builder had it or the chain registered it, and its handler is
      the one from the last registration of that name, or the builder's
      original one if the chain never mentions it. */
  lemma {:induction false} AddAllLastWins(b: Builder, regs: seq<(string, Option<HandlerId>)>, name: string)
    requires AddAll(b, regs).Ok?
    ensures var m := Build(AddAll(b, regs).value);
            match LastRegistration(regs, name)
            case Some(h) => Lookup(m, name) == Some(h)
            case None => Lookup(m, name) == Lookup(Build(b), name)
    decreases |regs|
  {
    if |regs| == 0 {
    } else {
      var b' := Add(b, regs[0].0, regs[0].1).value;
      AddAllLastWins(b', regs[1..], name);
      LastRegistrationSplit(regs, name);
    }
  }

  /** The last registration of a name in a chain is the last one in its tail
      if the tail mentions it, else the head's if the head is that name. */
  lemma {:induction false} LastRegistrationSplit(regs: seq<(string, Option<HandlerId>)>, name: string)
    requires |regs| > 0
    requires forall i :: 0 <= i < |regs| ==> regs[i].1.Some?
    ensures LastRegistration(regs, name) ==
              match LastRegistration(regs[1..], name)
              case Some(h) => Some(h)
              case None => if regs[0].0 == name then regs[0].1 else None
    decreases |regs|
  {
    var tail := regs[1..];
    if |regs| == 1 {
      assert tail == [];
    } else {
      var init := regs[..|regs| - 1];
      assert init[1..] == tail[..|tail| - 1];
      assert tail[|tail| - 1] == regs[|regs| - 1];
      if regs[|regs| - 1].0 != name {
        LastRegistrationSplit(init, name);
        assert init[0] == regs[0];
        assert LastRegistration(tail, name) == LastRegistration(init[1..], name);
      }
    }
  }
}
