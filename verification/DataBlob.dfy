/**
 The handler for large component configurations: fragments are put together in a second buffer, which
 becomes the current one only when it is complete and accepted.
 */
module DataBlob {
  import opened Wrappers
  import opened Bytes

  datatype Position = Middle | First | Last | Single

  datatype CompState = Init | Ready | Suspend | Prepare | Paused | Active | PreActive

  datatype Result = Ok | Busy | NoMemory | CopyFailed | Rejected(code: int)

  class Handler {
    const singleBlob: bool
    const validator: Option<seq<Byte> -> int>
    var data: array?<Byte>
    var dataNew: array?<Byte>
    var dataSize: nat
    var newDataSize: nat
    var dataReady: bool
    var dataPos: nat
    /** The fragments accepted for the new blob so far, put together. */
    ghost var received: seq<Byte>

    ghost function Repr(): set<object>
      reads this
    {
      (if data != null then {data} else {}) + (if dataNew != null then {dataNew} else {})
    }

    ghost predicate Valid()
      reads this, Repr()
    {
      && (data != null ==> data.Length == dataSize && data != dataNew)
      && (dataNew != null ==>
            dataNew.Length == newDataSize && dataPos <= newDataSize && received == dataNew[..dataPos])
      && (singleBlob ==> (data == null || dataNew == null) && (dataNew != null ==> !dataReady))
    }

    /** The blob a component gets. */
    ghost function Current(): Option<seq<Byte>>
      reads this, data
    {
      if data == null then None else Some(data[..])
    }

    constructor (singleBlob: bool, validator: Option<seq<Byte> -> int>)
      ensures Valid() && data == null && dataNew == null && this.singleBlob == singleBlob && this.validator == validator
    {
      this.singleBlob, this.validator := singleBlob, validator;
      data, dataNew, dataSize, newDataSize, dataReady, dataPos := null, null, 0, 0, false, 0;
      received := [];
    }

    predicate IsNewAvailable()
      reads this
    {
      dataNew != null && dataReady
    }

    /** The new blob if there is one, all of it at once, and otherwise the current one. */
    method GetDataBlob() returns (blob: array?<Byte>, size: nat)
      requires Valid()
      modifies this`data, this`dataNew, this`dataSize, this`newDataSize, this`dataReady, this`dataPos
      ensures Valid() && blob == data && size == dataSize
      ensures old(IsNewAvailable()) ==> data == old(dataNew) && dataNew == null
      ensures !old(IsNewAvailable()) ==> data == old(data) && dataNew == old(dataNew) && dataSize == old(dataSize)
      ensures !old(IsNewAvailable()) ==>
        newDataSize == old(newDataSize) && dataReady == old(dataReady) && dataPos == old(dataPos)
    {
      if IsNewAvailable() {
        data, dataSize := dataNew, newDataSize;
        dataNew, dataReady, newDataSize, dataPos := null, false, 0, 0;
      }
      return data, dataSize;
    }

    /** A fragment that opens a request. `allocates` says whether the allocator has the memory. */
    method Open(size: nat, allocates: bool) returns (ret: Result)
      requires Valid() && dataNew == null
      modifies this`data, this`dataNew, this`newDataSize, this`dataReady, this`dataPos, this`received
      ensures Valid()
      ensures ret == Ok ==> dataNew != null && newDataSize == size && dataPos == 0 && !dataReady && received == []
      ensures ret == Ok ==> data == if singleBlob then null else old(data)
      ensures ret == Ok ==> fresh(dataNew) || (singleBlob && dataNew == old(data))
      ensures ret == if !allocates && !(singleBlob && old(data) != null && size == old(dataSize)) then NoMemory else Ok
      ensures ret == NoMemory ==> dataNew == null && data == if singleBlob then null else old(data)
    {
      if singleBlob {
        if size != dataSize {
          data := null;
        } else {
          dataNew := data;
          data := null;
        }
      }
      if dataNew == null {
        if !allocates { return NoMemory; }
        dataNew := new Byte[size];
      }
      newDataSize, dataReady, dataPos, received := size, false, 0, [];
      return Ok;
    }

    /** Puts a fragment behind those before. */
    method Append(fragment: seq<Byte>) returns (ret: Result)
      requires Valid() && dataNew != null
      modifies this`dataPos, this`received, dataNew
      ensures Valid() && Current() == old(Current())
      ensures ret == if old(dataPos) + |fragment| <= newDataSize then Ok else CopyFailed
      ensures ret == Ok ==> dataPos == old(dataPos) + |fragment| && received == old(received) + fragment
      ensures ret != Ok ==> dataPos == old(dataPos) && received == old(received) && dataNew[..] == old(dataNew[..])
    {
      if |fragment| > newDataSize - dataPos { return CopyFailed; }
      forall i | 0 <= i < |fragment| { dataNew[dataPos + i] := fragment[i]; }
      received := received + fragment;
      dataPos := dataPos + |fragment|;
      assert dataNew[..dataPos] == old(dataNew[..dataPos]) + fragment;
      return Ok;
    }

    /** After the final fragment: validation, and publication where the old blob is not in use. */
    method Finish(state: CompState) returns (ret: Result)
      requires Valid() && dataNew != null && (singleBlob ==> state != Active)
      modifies this`data, this`dataNew, this`dataSize, this`newDataSize, this`dataReady, this`dataPos
      ensures Valid()
      ensures ret == Verdict(validator, old(dataNew[..]))
      ensures ret != Ok ==> dataNew == null && data == old(data) && dataSize == old(dataSize)
      ensures ret == Ok && (state == Ready || old(data) == null) ==> data == old(dataNew) && dataNew == null
      ensures ret == Ok && state != Ready && old(data) != null ==>
        IsNewAvailable() && data == old(data) && dataNew == old(dataNew) && dataPos == old(dataPos)
          && newDataSize == old(newDataSize)
    {
      ret := Ok;
      if validator.Some? {
        var code := validator.value(dataNew[..]);
        if code < 0 {
          dataNew := null;
          return Rejected(code);
        }
      }
      if state == Ready { data := null; }
      if data == null {
        data, dataSize := dataNew, newDataSize;
        dataNew, dataReady, newDataSize, dataPos := null, false, 0, 0;
      } else {
        dataReady := true;
      }
    }

    /** One fragment of a configuration of `size` bytes. */
    method Set(pos: Position, size: nat, fragment: seq<Byte>, state: CompState, allocates: bool) returns (ret: Result)
      requires Valid()
      modifies this, dataNew, if singleBlob then data else null
      ensures Valid()
      ensures var all := if Opens(pos) then fragment else old(received) + fragment;
        var room := if Opens(pos) then size else old(newDataSize);
        var reuses := singleBlob && old(data) != null && size == old(dataSize);
        if (Opens(pos) && old(dataNew) != null) || (singleBlob && state == Active) then ret == Busy
        else if Opens(pos) && fragment == [] then ret == Ok
        else if if Opens(pos) then !allocates && !reuses else old(dataNew) == null then ret == NoMemory
        else if |all| > room then ret == CopyFailed
        else if !Closes(pos) then ret == Ok
        else if |all| == room then ret == Verdict(validator, all)
        else ret == Ok || ret.Rejected?
      ensures ret == NoMemory || ret.Rejected? ==> dataNew == null
      ensures ret == Busy ==> data == old(data) && dataNew == old(dataNew) && Current() == old(Current())
      ensures ret == Busy ==> dataReady == old(dataReady) && dataPos == old(dataPos) && received == old(received)
      ensures ret == Busy && dataNew != null ==> dataNew[..] == old(dataNew[..])
      ensures !singleBlob && (!Closes(pos) || ret != Ok) ==> data == old(data) && Current() == old(Current())
      ensures ret == Ok && !(Opens(pos) && fragment == []) ==>
        var all := if Opens(pos) then fragment else old(received) + fragment;
        if !Closes(pos) then
          dataNew != null && received == all && (Opens(pos) ==> !dataReady && newDataSize == size)
          && (!Opens(pos) ==> dataNew == old(dataNew) && newDataSize == old(newDataSize) && dataReady == old(dataReady))
        else if state == Ready || old(data) == null || singleBlob then
          dataNew == null && data != null && |all| <= data.Length && data[..|all|] == all
          && data.Length == (if Opens(pos) then size else old(newDataSize))
        else
          IsNewAvailable() && data == old(data) && Current() == old(Current()) && received == all
            && |received| == dataPos
          && newDataSize == (if Opens(pos) then size else old(newDataSize))
      ensures ret == Ok && Opens(pos) && fragment == [] ==>
        data == old(data) && dataNew == old(dataNew) && Current() == old(Current())
      ensures dataNew != null && dataNew != old(dataNew) ==> fresh(dataNew) || (singleBlob && dataNew == old(data))
    {
      if dataNew != null && Opens(pos) { return Busy; }
      if singleBlob && state == Active { return Busy; }
      if Opens(pos) {
        if fragment == [] { return Ok; }
        var err := Open(size, allocates);
        if err != Ok { return err; }
      }
      if dataNew == null { return NoMemory; }
      ret := Append(fragment);
      if ret != Ok { return; }
      if Closes(pos) {
        ghost var all := if Opens(pos) then fragment else old(received) + fragment;
        assert received == all == dataNew[..dataPos] && |all| == dataPos by { assert [] + fragment == fragment; }
        assert |all| == newDataSize ==> dataNew[..] == all;
        ret := Finish(state);
      }
    }
  }

  predicate Opens(pos: Position) { pos == First || pos == Single }

  predicate Closes(pos: Position) { pos == Last || pos == Single }

  /** What the validator says about a complete blob. */
  function Verdict(validator: Option<seq<Byte> -> int>, blob: seq<Byte>): Result {
    if validator.Some? && validator.value(blob) < 0 then Rejected(validator.value(blob)) else Ok
  }

  function Concat(fragments: seq<seq<Byte>>): seq<Byte> {
    if fragments == [] then [] else Concat(fragments[..|fragments| - 1]) + fragments[|fragments| - 1]
  }

  lemma ConcatNext(fragments: seq<seq<Byte>>, i: nat)
    requires i < |fragments|
    ensures Concat(fragments[..i + 1]) == Concat(fragments[..i]) + fragments[i]
  {
    assert fragments[..i + 1][..i] == fragments[..i];
  }

  lemma {:induction false} ConcatPrefix(fragments: seq<seq<Byte>>, i: nat)
    requires i <= |fragments|
    ensures |Concat(fragments[..i])| <= |Concat(fragments)|
    decreases |fragments| - i
  {
    if i < |fragments| {
      ConcatNext(fragments, i);
      ConcatPrefix(fragments, i + 1);
    } else {
      assert fragments[..i] == fragments;
    }
  }

  function PositionOf(i: nat, n: nat): Position {
    if n == 1 then Single else if i == 0 then First else if i + 1 == n then Last else Middle
  }

  /** What a component sees when it asks. */
  method Observe(h: Handler) returns (o: Option<seq<Byte>>)
    requires h.Valid()
    modifies h`data, h`dataNew, h`dataSize, h`newDataSize, h`dataReady, h`dataPos
    ensures h.Valid()
    ensures old(h.IsNewAvailable()) ==> o == Some(old(h.dataNew[..])) && h.data == old(h.dataNew) && h.dataNew == null
    ensures !old(h.IsNewAvailable()) ==>
      o == old(h.Current()) && h.data == old(h.data) && h.dataNew == old(h.dataNew) && h.dataSize == old(h.dataSize)
      && h.newDataSize == old(h.newDataSize) && h.dataReady == old(h.dataReady) && h.dataPos == old(h.dataPos)
  {
    var blob, _ := h.GetDataBlob();
    if blob == null { o := None; } else { o := Some(blob[..]); }
  }

  /** What a component that asks gets next. */
  ghost function Visible(h: Handler): Option<seq<Byte>>
    reads h, h.Repr()
  {
    if h.IsNewAvailable() then Some(h.dataNew[..]) else h.Current()
  }

  /** Two buffers: a request is refused while an earlier one is pending. Otherwise, a component that asks
      at any time during a request that fills the announced size gets either the blob from before or the
      whole new one; once the request is accepted the new one is next. */
  method SendRequest(h: Handler, fragments: seq<seq<Byte>>, state: nat -> CompState, asks: nat -> bool, allocates: bool)
    returns (ret: Result, seen: seq<Option<seq<Byte>>>)
    requires h.Valid() && !h.singleBlob && fragments != [] && fragments[0] != []
    modifies h, h.dataNew
    ensures h.Valid()
    ensures h.dataNew != null ==> fresh(h.dataNew) || h.dataNew == old(h.dataNew)
    ensures ret == (if old(h.dataNew) != null then Busy
                    else if !allocates then NoMemory else Verdict(h.validator, Concat(fragments)))
    ensures forall o :: o in seen ==> o == old(Visible(h)) || (ret == Ok && o == Some(Concat(fragments)))
    ensures Visible(h) == if ret == Ok then Some(Concat(fragments)) else old(Visible(h))
    ensures ret == Busy ==> h.dataNew == old(h.dataNew)
  {
    hide Concat;
    var n := |fragments|;
    if h.dataNew != null {
      ret := h.Set(PositionOf(0, n), |Concat(fragments)|, fragments[0], state(0), allocates);
      return ret, [];
    }
    ret, seen := SendHead(h, fragments, state, asks, allocates);
    if ret != Ok { return; }
    var i := n - 1;
    ConcatNext(fragments, i);
    ConcatNone(fragments);
    assert fragments[..i + 1] == fragments;
    assert (if i == 0 then [] else h.received) + fragments[i] == Concat(fragments) && [] + fragments[i] == fragments[i];
    ret := h.Set(PositionOf(i, n), |Concat(fragments)|, fragments[i], state(i), allocates);
    if ret != Ok { return; }
    assert h.dataNew != null ==> h.dataNew[..] == h.received == Concat(fragments);
    assert h.dataNew == null ==> h.data[..] == Concat(fragments);
    if asks(i) {
      var o := Observe(h);
      seen := seen + [o];
    }
  }

  /** The new blob holds the first `i` fragments, and the component still has the old one. */
  ghost predicate Halfway(h: Handler, fragments: seq<seq<Byte>>, i: nat)
    requires i <= |fragments|
    reads h, h.Repr()
  {
    if i == 0 then h.dataNew == null
    else
      h.dataNew != null && !h.dataReady && h.newDataSize == |Concat(fragments)|
      && h.received == Concat(fragments[..i])
  }

  /** All fragments but the last. */
  method SendHead(h: Handler, fragments: seq<seq<Byte>>, state: nat -> CompState, asks: nat -> bool, allocates: bool)
    returns (ret: Result, seen: seq<Option<seq<Byte>>>)
    requires h.Valid() && !h.singleBlob && fragments != [] && fragments[0] != [] && h.dataNew == null
    modifies h
    ensures h.Valid() && h.data == old(h.data) && h.Current() == old(h.Current())
    ensures h.dataNew != null ==> fresh(h.dataNew)
    ensures ret == if |fragments| > 1 && !allocates then NoMemory else Ok
    ensures Halfway(h, fragments, if ret == Ok then |fragments| - 1 else 0)
    ensures forall o :: o in seen ==> o == old(h.Current())
  {
    hide Concat;
    var n := |fragments|;
    ghost var before := h.Current();
    ret, seen := Ok, [];
    var i := 0;
    while i < n - 1
      invariant 0 <= i <= n - 1 && h.Valid() && h.Current() == before && h.data == old(h.data) && (i > 0 ==> allocates)
      invariant ret == Ok && Halfway(h, fragments, i) && (h.dataNew != null ==> fresh(h.dataNew))
      invariant forall o :: o in seen ==> o == before
    {
      ConcatNext(fragments, i);
      ConcatPrefix(fragments, i + 1);
      ConcatNone(fragments);
      ret := h.Set(PositionOf(i, n), |Concat(fragments)|, fragments[i], state(i), allocates);
      if ret != Ok { return; }
      if asks(i) {
        var o := Observe(h);
        seen := seen + [o];
      }
      i := i + 1;
    }
  }

  /** A request, and whether the component asks before it and after each of its fragments. */
  datatype Request = Request(fragments: seq<seq<Byte>>, state: nat -> CompState, asksFirst: bool, asks: nat -> bool,
                             allocates: bool)

  /** The latest blob accepted, if any was, among the first `n` requests. */
  function Latest(start: Option<seq<Byte>>, requests: seq<Request>, results: seq<Result>, n: nat): Option<seq<Byte>>
    requires n <= |requests| && n <= |results|
  {
    if n == 0 then start
    else if results[n - 1] == Ok then Some(Concat(requests[n - 1].fragments))
    else Latest(start, requests, results, n - 1)
  }

  lemma {:induction false} LatestOf(start: Option<seq<Byte>>, requests: seq<Request>, a: seq<Result>, b: seq<Result>,
                                    n: nat)
    requires n <= |requests| && n <= |a| && a <= b
    ensures Latest(start, requests, a, n) == Latest(start, requests, b, n)
  {
    if n > 0 { LatestOf(start, requests, a, b, n - 1); }
  }

  /** Any run of requests: during each, a component sees the latest blob accepted before, or this one if
      it is accepted, always as a whole. Refused and rejected requests leave no trace. */
  method SendRequests(h: Handler, requests: seq<Request>)
    returns (results: seq<Result>, seen: seq<seq<Option<seq<Byte>>>>)
    requires h.Valid() && !h.singleBlob
    requires forall r :: r in requests ==> r.fragments != [] && r.fragments[0] != []
    modifies h, h.dataNew
    ensures h.Valid() && |results| == |seen| == |requests|
    ensures Visible(h) == Latest(old(Visible(h)), requests, results, |requests|)
    ensures forall j, o :: 0 <= j < |requests| && o in seen[j] ==>
      o == Latest(old(Visible(h)), requests, results, j) || o == Latest(old(Visible(h)), requests, results, j + 1)
    ensures forall j :: 0 <= j < |requests| ==>
      results[j] in {Busy, NoMemory, Verdict(h.validator, Concat(requests[j].fragments))}
  {
    hide Concat, Verdict, h.Valid;
    results, seen := [], [];
    ghost var start := Visible(h);
    for i := 0 to |requests|
      invariant h.Valid() && |results| == |seen| == i && Visible(h) == Latest(start, requests, results, i)
      invariant h.dataNew != null ==> fresh(h.dataNew) || h.dataNew == old(h.dataNew)
      invariant forall j, o :: 0 <= j < i && o in seen[j] ==>
        o == Latest(start, requests, results, j) || o == Latest(start, requests, results, j + 1)
      invariant forall j :: 0 <= j < i ==>
        results[j] in {Busy, NoMemory, Verdict(h.validator, Concat(requests[j].fragments))}
    {
      var r := requests[i];
      assert r in requests;
      var first := [];
      if r.asksFirst {
        var o := Observe(h);
        first := [o];
      }
      var ret, more := SendRequest(h, r.fragments, r.state, r.asks, r.allocates);
      forall j | 0 <= j <= i
        ensures Latest(start, requests, results + [ret], j) == Latest(start, requests, results, j)
      {
        LatestOf(start, requests, results, results + [ret], j);
      }
      results, seen := results + [ret], seen + [first + more];
    }
  }

  lemma ConcatNone(fragments: seq<seq<Byte>>)
    ensures Concat(fragments[..0]) == []
  {
  }
}
