/** TxIDFromBIP144, the cursor parser of internal/txbuilder/txbuilder.go that takes
    a signed transaction apart again, and the grammar of what it accepts. */
module Parser {
  import opened Common
  import opened Bytes
  import opened Transaction

  // ----------------------------------------------- what each closure leaves unread

  function Skip(bs: seq<byte>, n: nat): Option<seq<byte>> {
    if n > |bs| then None else Some(bs[n..])
  }

  /** A compact size, then as many bytes as it says. */
  function SkipSized(bs: seq<byte>): (r: Option<seq<byte>>)
    ensures r.Some? ==> |r.value| < |bs|
  {
    var size :- ReadCompact(bs);
    Skip(size.1, size.0)
  }

  function SkipInput(bs: seq<byte>): (r: Option<seq<byte>>)
    ensures r.Some? ==> |r.value| < |bs|
  {
    var afterPrevout :- Skip(bs, 36);
    var afterScript :- SkipSized(afterPrevout);
    Skip(afterScript, 4)
  }

  function SkipOutput(bs: seq<byte>): (r: Option<seq<byte>>)
    ensures r.Some? ==> |r.value| < |bs|
  {
    var afterAmount :- Skip(bs, 8);
    SkipSized(afterAmount)
  }

  function SkipStack(bs: seq<byte>): Option<seq<byte>> {
    var items :- ReadCompact(bs);
    SkipMany(SkipSized, items.1, items.0)
  }

  /** `n` pieces in a row. */
  function SkipMany(skip: seq<byte> -> Option<seq<byte>>, bs: seq<byte>, n: nat): Option<seq<byte>>
    decreases n
  {
    if n == 0 then Some(bs)
    else
      var rest :- skip(bs);
      SkipMany(skip, rest, n - 1)
  }

  /** Inputs, outputs and witnesses must fill the body; the bytes of the latter. */
  function SkipBody(body: seq<byte>): Option<seq<byte>> {
    var inputs :- ReadCompact(body);
    if inputs.0 == 0 then None
    else
      var afterInputs :- SkipMany(SkipInput, inputs.1, inputs.0);
      var outputs :- ReadCompact(afterInputs);
      if outputs.0 == 0 then None
      else
        var witnesses :- SkipMany(SkipOutput, outputs.1, outputs.0);
        var rest :- SkipMany(SkipStack, witnesses, inputs.0);
        if rest != [] then None else Some(witnesses)
  }

  /** The witness-free bytes of a transaction, if its form is accepted. */
  function Strip(raw: seq<byte>): Option<seq<byte>> {
    if |raw| < 12 || raw[4] != 0 || raw[5] != 1 then None
    else
      var body := raw[6..|raw| - 4];
      var witnesses :- SkipBody(body);
      SkipBodyShrinks(body);
      Some(raw[..4] + body[..|body| - |witnesses|] + raw[|raw| - 4..])
  }

  lemma {:induction false} SkipManyShrinks(skip: seq<byte> -> Option<seq<byte>>, bs: seq<byte>, n: nat)
    requires forall s :: skip(s).Some? ==> |skip(s).value| <= |s|
    ensures SkipMany(skip, bs, n).Some? ==> |SkipMany(skip, bs, n).value| <= |bs|
    decreases n
  {
    if n > 0 && skip(bs).Some? {
      SkipManyShrinks(skip, skip(bs).value, n - 1);
    }
  }

  lemma SkipBodyShrinks(body: seq<byte>)
    ensures SkipBody(body).Some? ==> |SkipBody(body).value| <= |body|
  {
    if SkipBody(body).Some? {
      var inputs := ReadCompact(body).value;
      SkipManyShrinks(SkipInput, inputs.1, inputs.0);
      var afterInputs := SkipMany(SkipInput, inputs.1, inputs.0).value;
      var outputs := ReadCompact(afterInputs).value;
      SkipManyShrinks(SkipOutput, outputs.1, outputs.0);
    }
  }

  // ------------------------------------------------------------------ the parser

  /** readCompact: reads at `offset`, never at or past `end`. */
  method ReadCompactAt(raw: seq<byte>, offset: nat, end: nat) returns (r: Option<nat>, next: nat)
    requires offset <= end <= |raw|
    ensures offset <= next <= end
    ensures r.Some? ==> offset < next && ReadCompact(raw[offset..end]) == Some((r.value, raw[next..end]))
    ensures r.None? ==> ReadCompact(raw[offset..end]).None?
  {
    next := offset;
    if offset >= end {
      return None, next;
    }
    var prefix := raw[offset];
    next := offset + 1;
    var width := FormWidth(prefix);
    if end - next < width {
      return None, next;
    }
    SliceDrop(raw, offset, end, 1 + width);
    SliceTake(raw, offset, end, 1, 1 + width);
    if width == 0 {
      return Some(prefix), next;
    }
    var v := FromLE(raw[next..next + width]);
    next := next + width;
    return Some(v), next;
  }

  lemma SliceDrop(raw: seq<byte>, offset: nat, end: nat, n: nat)
    requires offset + n <= end <= |raw|
    ensures raw[offset..end][n..] == raw[offset + n..end]
  {
  }

  lemma SliceTake(raw: seq<byte>, offset: nat, end: nat, lo: nat, hi: nat)
    requires lo <= hi && offset + hi <= end <= |raw|
    ensures raw[offset..end][lo..hi] == raw[offset + lo..offset + hi]
  {
    var a, b := raw[offset..end][lo..hi], raw[offset + lo..offset + hi];
    forall k | 0 <= k < hi - lo
      ensures a[k] == b[k]
    {
      assert a[k] == raw[offset..end][lo + k] == raw[offset + lo + k];
    }
  }

  method SkipAt(offset: nat, end: nat, length: nat) returns (ok: bool, next: nat)
    requires offset <= end
    ensures offset <= next <= end
    ensures ok <==> length <= end - offset
    ensures ok ==> next == offset + length
  {
    if length > end - offset {
      return false, offset;
    }
    return true, offset + length;
  }

  method SkipSizedAt(raw: seq<byte>, offset: nat, end: nat) returns (ok: bool, next: nat)
    requires offset <= end <= |raw|
    ensures offset <= next <= end
    ensures ok ==> offset < next
    ensures SkipSized(raw[offset..end]) == if ok then Some(raw[next..end]) else None
  {
    var length, afterSize := ReadCompactAt(raw, offset, end);
    if length.None? {
      return false, offset;
    }
    ok, next := SkipAt(afterSize, end, length.value);
    if ok {
      SliceDrop(raw, afterSize, end, length.value);
    }
  }

  method SkipInputAt(raw: seq<byte>, offset: nat, end: nat) returns (ok: bool, next: nat)
    requires offset <= end <= |raw|
    ensures offset <= next <= end && (ok ==> offset < next)
    ensures SkipInput(raw[offset..end]) == if ok then Some(raw[next..end]) else None
  {
    hide SkipSized;
    ok, next := SkipAt(offset, end, 36);
    if !ok {
      return;
    }
    SliceDrop(raw, offset, end, 36);
    var afterScript;
    ok, afterScript := SkipSizedAt(raw, next, end);
    if !ok {
      return;
    }
    ok, next := SkipAt(afterScript, end, 4);
    if ok {
      SliceDrop(raw, afterScript, end, 4);
    }
  }

  method SkipOutputAt(raw: seq<byte>, offset: nat, end: nat) returns (ok: bool, next: nat)
    requires offset <= end <= |raw|
    ensures offset <= next <= end && (ok ==> offset < next)
    ensures SkipOutput(raw[offset..end]) == if ok then Some(raw[next..end]) else None
  {
    hide SkipSized;
    ok, next := SkipAt(offset, end, 8);
    if !ok {
      return;
    }
    SliceDrop(raw, offset, end, 8);
    ok, next := SkipSizedAt(raw, next, end);
  }

  // The loops count up to values near 2^64, yet they end when the bytes do.

  method SkipInputsAt(raw: seq<byte>, start: nat, end: nat, count: nat) returns (ok: bool, offset: nat)
    requires start <= end <= |raw|
    ensures start <= offset <= end
    ensures SkipMany(SkipInput, raw[start..end], count) == if ok then Some(raw[offset..end]) else None
  {
    hide SkipInput;
    offset := start;
    var i := 0;
    while i < count
      invariant i <= count && start <= offset <= end
      invariant SkipMany(SkipInput, raw[start..end], count) == SkipMany(SkipInput, raw[offset..end], count - i)
      decreases end - offset
    {
      var next;
      ok, next := SkipInputAt(raw, offset, end);
      if !ok {
        return false, offset;
      }
      offset := next;
      i := i + 1;
    }
    ok := true;
  }

  method SkipOutputsAt(raw: seq<byte>, start: nat, end: nat, count: nat) returns (ok: bool, offset: nat)
    requires start <= end <= |raw|
    ensures start <= offset <= end
    ensures SkipMany(SkipOutput, raw[start..end], count) == if ok then Some(raw[offset..end]) else None
  {
    hide SkipOutput;
    offset := start;
    var i := 0;
    while i < count
      invariant i <= count && start <= offset <= end
      invariant SkipMany(SkipOutput, raw[start..end], count) == SkipMany(SkipOutput, raw[offset..end], count - i)
      decreases end - offset
    {
      var next;
      ok, next := SkipOutputAt(raw, offset, end);
      if !ok {
        return false, offset;
      }
      offset := next;
      i := i + 1;
    }
    ok := true;
  }

  method SkipItemsAt(raw: seq<byte>, start: nat, end: nat, count: nat) returns (ok: bool, offset: nat)
    requires start <= end <= |raw|
    ensures start <= offset <= end
    ensures SkipMany(SkipSized, raw[start..end], count) == if ok then Some(raw[offset..end]) else None
  {
    hide SkipSized;
    offset := start;
    var j := 0;
    while j < count
      invariant j <= count && start <= offset <= end
      invariant SkipMany(SkipSized, raw[start..end], count) == SkipMany(SkipSized, raw[offset..end], count - j)
      decreases end - offset
    {
      var next;
      ok, next := SkipSizedAt(raw, offset, end);
      if !ok {
        return false, offset;
      }
      offset := next;
      j := j + 1;
    }
    ok := true;
  }

  method SkipStackAt(raw: seq<byte>, offset: nat, end: nat) returns (ok: bool, next: nat)
    requires offset <= end <= |raw|
    ensures offset <= next <= end && (ok ==> offset < next)
    ensures SkipStack(raw[offset..end]) == if ok then Some(raw[next..end]) else None
  {
    hide ReadCompact, SkipMany;
    var items, afterCount := ReadCompactAt(raw, offset, end);
    if items.None? {
      return false, offset;
    }
    ok, next := SkipItemsAt(raw, afterCount, end, items.value);
  }

  method SkipStacksAt(raw: seq<byte>, start: nat, end: nat, count: nat) returns (ok: bool, offset: nat)
    requires start <= end <= |raw|
    ensures start <= offset <= end
    ensures SkipMany(SkipStack, raw[start..end], count) == if ok then Some(raw[offset..end]) else None
  {
    hide SkipStack;
    offset := start;
    var i := 0;
    while i < count
      invariant i <= count && start <= offset <= end
      invariant SkipMany(SkipStack, raw[start..end], count) == SkipMany(SkipStack, raw[offset..end], count - i)
      decreases end - offset
    {
      var next;
      ok, next := SkipStackAt(raw, offset, end);
      if !ok {
        return false, offset;
      }
      offset := next;
      i := i + 1;
    }
    ok := true;
  }

  method SkipBodyAt(raw: seq<byte>, end: nat) returns (ok: bool, witnessStart: nat)
    requires 6 <= end <= |raw|
    ensures 6 <= witnessStart <= end
    ensures SkipBody(raw[6..end]) == if ok then Some(raw[witnessStart..end]) else None
  {
    hide ReadCompact, SkipMany;
    var inputs, offset := ReadCompactAt(raw, 6, end);
    if inputs.None? || inputs.value == 0 {
      return false, offset;
    }
    ok, offset := SkipInputsAt(raw, offset, end, inputs.value);
    if !ok {
      return false, offset;
    }
    var outputs;
    outputs, offset := ReadCompactAt(raw, offset, end);
    if outputs.None? || outputs.value == 0 {
      return false, offset;
    }
    ok, witnessStart := SkipOutputsAt(raw, offset, end, outputs.value);
    if !ok {
      return false, offset;
    }
    ok, offset := SkipStacksAt(raw, witnessStart, end, inputs.value);
    ok := ok && offset == end;
  }

  /** Reads only inside `raw` and ends on every input. */
  method TxIDFromBIP144(sha: Hash, raw: seq<byte>) returns (r: Option<string>)
    ensures r == match Strip(raw) case None => None case Some(stripped) => Some(TxID(sha, stripped))
    ensures r.Some? ==> WireOrder(r.value) == Some(sha(sha(Strip(raw).value)))
  {
    hide SkipBody, WireOrder, TxID;
    if |raw| < 12 || raw[4] != 0 || raw[5] != 1 {
      return None;
    }
    var end := |raw| - 4;
    var ok, witnessStart := SkipBodyAt(raw, end);
    if !ok {
      return None;
    }
    var stripped := raw[..4] + raw[6..witnessStart] + raw[end..];
    assert raw[6..witnessStart] == raw[6..end][..witnessStart - 6];
    TxIDIsDoubleHash(sha, stripped);
    return Some(TxID(sha, stripped));
  }
}
