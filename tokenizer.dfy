/** tsh_tokenize and tsh_realloc: filling a growing buffer of token pointers.

    The buffer is an `array<Slot>`: a slot is either a token or the NULL
    pointer that ends the argument vector. Tokens are copies of the line's
    substrings rather than pointers into it. Whether the allocator can grant a
    buffer is a parameter, `maxSlots`: a request for more slots than that fails,
    and the tokenizer reports that failure instead of returning a vector.
 */
module Tokenizer {
  import opened Tokens

  /** TOKEN_BUFSIZE: the initial capacity of the buffer and the step it grows by. */
  const TokenBufSize: nat := 64

  /** A `char*` entry of the argument vector. */
  datatype Slot = Null | Ptr(text: string)

  /** The result of an allocation: a buffer, or the failure that makes the
      shell print ALLOC_ERROR and exit. */
  datatype Allocation = Allocated(slots: array<Slot>) | AllocError

  /** The buffer capacity once `count` tokens are stored: the least multiple
      of TOKEN_BUFSIZE strictly above `count`, so that the slot at `count`
      (the next token or the sentinel) always exists. */
  function Capacity(count: nat): (cap: nat)
    ensures cap % TokenBufSize == 0
    ensures count < cap <= count + TokenBufSize
  {
    TokenBufSize * (count / TokenBufSize + 1)
  }

  /** Only one multiple of TOKEN_BUFSIZE lies in (count, count + TOKEN_BUFSIZE]. */
  lemma CapacityUnique(count: nat, cap: nat)
    requires cap % TokenBufSize == 0 && count < cap <= count + TokenBufSize
    ensures cap == Capacity(count)
  {
  }

  /** Storing one more token grows the capacity by exactly TOKEN_BUFSIZE when
      the count reaches the capacity, and leaves it alone otherwise. */
  lemma CapacityStep(count: nat)
    ensures Capacity(count + 1) ==
              if count + 1 == Capacity(count) then Capacity(count) + TokenBufSize else Capacity(count)
  {
    var c := Capacity(count);
    if count + 1 == c {
      CapacityUnique(count + 1, c + TokenBufSize);
    } else {
      CapacityUnique(count + 1, c);
    }
  }

  /** The capacity never shrinks as tokens are added. */
  lemma {:induction false} CapacityMonotone(m: nat, n: nat)
    requires m <= n
    ensures Capacity(m) <= Capacity(n)
    decreases n - m
  {
    if m < n {
      CapacityStep(m);
      CapacityMonotone(m + 1, n);
    }
  }

  /** `slots` starts with the pointers to `words`, in order, followed by the
      NULL sentinel at index |words|. */
  predicate NullTerminated(slots: seq<Slot>, words: seq<string>) {
    && |words| < |slots|
    && slots[|words|] == Null
    && (forall i :: 0 <= i < |words| ==> slots[i] == Ptr(words[i]))
  }

  /** The sentinel makes the vector self-delimiting: a buffer holds at most
      one NULL-terminated sequence of tokens. */
  lemma NullTerminatedUnique(slots: seq<Slot>, a: seq<string>, b: seq<string>)
    requires NullTerminated(slots, a) && NullTerminated(slots, b)
    ensures a == b
  {
  }

  /** The argument vector of `words` with nothing after its sentinel: the
      NULL-terminated buffer as one value, so that a model of the code can
      index it the way the C code indexes `tokens`. */
  function ArgVector(words: seq<string>): (v: seq<Slot>)
    ensures |v| == |words| + 1 && NullTerminated(v, words)
  {
    seq(|words| + 1, i requires 0 <= i <= |words| => if i < |words| then Ptr(words[i]) else Null)
  }

  /** Up to its sentinel, a NULL-terminated buffer is the argument vector of
      its words. */
  lemma NullTerminatedIsArgVector(slots: seq<Slot>, words: seq<string>)
    requires NullTerminated(slots, words)
    ensures slots[..|words| + 1] == ArgVector(words)
  {
    assert forall i :: 0 <= i <= |words| ==> slots[..|words| + 1][i] == ArgVector(words)[i];
  }

  /** strspn over TOKEN_DELIM from `from`: the first index at or after `from`
      that holds no delimiter, or |line|. */
  method SkipDelims(line: string, from: nat) returns (start: nat)
    requires from <= |line|
    ensures from <= start <= |line|
    ensures forall i :: from <= i < start ==> IsDelim(line[i])
    ensures start == |line| || !IsDelim(line[start])
  {
    start := from;
    while start < |line| && IsDelim(line[start])
      invariant from <= start <= |line|
      invariant forall i :: from <= i < start ==> IsDelim(line[i])
    {
      start := start + 1;
    }
  }

  /** strcspn over TOKEN_DELIM from `start`: the first index at or after
      `start` that holds a delimiter, or |line|. */
  method ScanWord(line: string, start: nat) returns (end: nat)
    requires start <= |line|
    ensures start <= end <= |line|
    ensures forall i :: start <= i < end ==> !IsDelim(line[i])
    ensures end == |line| || IsDelim(line[end])
  {
    end := start;
    while end < |line| && !IsDelim(line[end])
      invariant start <= end <= |line|
      invariant forall i :: start <= i < end ==> !IsDelim(line[i])
    {
      end := end + 1;
    }
  }

  /** One strtok call resuming at `from`: skip delimiters, then take the
      maximal run of non-delimiters as the token line[start..end]; `found` is
      false when only delimiters remain. The token is the first word of the
      rest of the line, and the words after it are those of line[end..]. */
  method NextToken(line: string, from: nat) returns (found: bool, start: nat, end: nat)
    requires from <= |line|
    ensures found ==> from <= start < end <= |line|
    ensures found ==> end == |line| || IsDelim(line[end])
    ensures found ==> Split(line[from..]) == [line[start..end]] + Split(line[end..])
    ensures !found ==> Split(line[from..]) == []
  {
    start := SkipDelims(line, from);
    SplitSkipsDelims(line[from..], start - from);
    assert line[from..][start - from..] == line[start..];
    end := ScanWord(line, start);
    found := start < |line|;
    if found {
      SplitAtWord(line, start, end);
    }
  }

  /** The word line[start..end], ended by a delimiter or by the end of the
      line, is the first word of line[start..]. */
  lemma SplitAtWord(line: string, start: nat, end: nat)
    requires start < end <= |line|
    requires forall i :: start <= i < end ==> !IsDelim(line[i])
    requires end == |line| || IsDelim(line[end])
    ensures Split(line[start..]) == [line[start..end]] + Split(line[end..])
  {
    assert line[start..] == line[start..end] + line[end..];
    SplitTakesWord(line[start..end], line[end..]);
  }

  /** strtok overwrites the delimiter that ends a token and resumes after it;
      that delimiter contributes no word, so resuming there loses nothing. */
  lemma SplitResumesAfterDelim(line: string, end: nat)
    requires end < |line| && IsDelim(line[end])
    ensures Split(line[end..]) == Split(line[end + 1..])
  {
    assert line[end..][1..] == line[end + 1..];
  }

  /** tsh_realloc: a buffer of `size` slots whose first entries are those of
      `buffer`, or AllocError when the allocator cannot grant `size` slots. */
  method Realloc(buffer: array<Slot>, size: nat, maxSlots: nat) returns (r: Allocation)
    ensures r.Allocated? <==> size <= maxSlots
    ensures r.Allocated? ==> fresh(r.slots) && r.slots.Length == size
    ensures r.Allocated? ==> forall i :: 0 <= i < buffer.Length && i < size ==> r.slots[i] == buffer[i]
  {
    if maxSlots < size {
      return AllocError;
    }
    var slots := new Slot[size];
    var i := 0;
    while i < buffer.Length && i < size
      invariant 0 <= i <= size && i <= buffer.Length
      invariant forall k :: 0 <= k < i ==> slots[k] == buffer[k]
    {
      slots[i] := buffer[i];
      i := i + 1;
    }
    r := Allocated(slots);
  }

  /** The body of tsh_tokenize's loop: store `token` at `location`, and when
      the count then reaches the capacity grow the buffer by TOKEN_BUFSIZE
      slots through tsh_realloc. Either way the slot at the new count exists. */
  method Append(tokens: array<Slot>, location: nat, token: string, maxSlots: nat) returns (r: Allocation)
    requires location < tokens.Length == Capacity(location) <= maxSlots
    modifies tokens
    ensures r.AllocError? <==> maxSlots < Capacity(location + 1)
    ensures r.Allocated? ==> r.slots == tokens || fresh(r.slots)
    ensures r.Allocated? ==> r.slots.Length == Capacity(location + 1)
    ensures r.Allocated? ==> r.slots[location] == Ptr(token)
    ensures r.Allocated? ==> forall i :: 0 <= i < location ==> r.slots[i] == old(tokens[i])
  {
    tokens[location] := Ptr(token);
    CapacityStep(location);
    var bufsize := tokens.Length;
    if location + 1 >= bufsize {
      bufsize := bufsize + TokenBufSize;
      r := Realloc(tokens, bufsize, maxSlots);
    } else {
      r := Allocated(tokens);
    }
  }

  /** The strtok loop of tsh_tokenize: the words of `line` stored in order
      in a fresh buffer of Capacity(count) slots, `count` being the number of
      words, or AllocError exactly when the buffer would have to grow beyond
      what the allocator grants. The initial malloc of TOKEN_BUFSIZE slots is
      not checked by the shell, so its success is a precondition. */
  method StoreTokens(line: string, maxSlots: nat) returns (r: Allocation, count: nat)
    requires TokenBufSize <= maxSlots
    ensures r.AllocError? <==> maxSlots < Capacity(|Split(line)|)
    ensures r.Allocated? ==> fresh(r.slots) && r.slots.Length == Capacity(|Split(line)|)
    ensures r.Allocated? ==> count == |Split(line)|
    ensures r.Allocated? ==> forall i :: 0 <= i < count ==> r.slots[i] == Ptr(Split(line)[i])
  {
    ghost var words := Split(line);
    var location := 0;
    var tokens := new Slot[TokenBufSize];
    var pos := 0;
    var found, start, end := NextToken(line, pos);
    assert line[0..] == line;
    if !found {
      assert |words[location..]| == 0;
    }
    while found
      invariant fresh(tokens)
      invariant tokens.Length == Capacity(location) <= maxSlots
      invariant pos <= |line| && location <= |words|
      invariant forall i :: 0 <= i < location ==> tokens[i] == Ptr(words[i])
      invariant found ==> pos <= start < end <= |line| && (end == |line| || IsDelim(line[end]))
      invariant found ==> words[location..] == [line[start..end]] + Split(line[end..])
      invariant !found ==> location == |words|
      decreases |line| - pos
    {
      ghost var rest := Split(line[end..]);
      assert words[location] == line[start..end] && words[location + 1..] == rest by {
        assert words[location..][0] == words[location];
        assert words[location..][1..] == words[location + 1..];
      }
      var stored := Append(tokens, location, line[start..end], maxSlots);
      location := location + 1;
      if stored.AllocError? {
        CapacityMonotone(location, |words|);
        return AllocError, location;
      }
      tokens := stored.slots;
      assert forall i :: 0 <= i < location ==> tokens[i] == Ptr(words[i]);
      if end < |line| {
        SplitResumesAfterDelim(line, end);
        pos := end + 1;
      } else {
        pos := end;
      }
      assert words[location..] == Split(line[pos..]);
      found, start, end := NextToken(line, pos);
      if !found {
        assert |words[location..]| == 0;
      }
    }
    r, count := Allocated(tokens), location;
  }

  /** tsh_tokenize: the words of `line` stored in order in a buffer of
      Capacity(count) slots and terminated by NULL, or AllocError exactly when
      the buffer would have to grow beyond what the allocator grants. */
  method Tokenize(line: string, maxSlots: nat) returns (r: Allocation)
    requires TokenBufSize <= maxSlots
    ensures r.AllocError? <==> maxSlots < Capacity(|Split(line)|)
    ensures r.Allocated? ==> r.slots.Length == Capacity(|Split(line)|)
    ensures r.Allocated? ==> NullTerminated(r.slots[..], Split(line))
    ensures r.Allocated? ==> r.slots[..|Split(line)| + 1] == ArgVector(Split(line))
  {
    var stored, count := StoreTokens(line, maxSlots);
    if stored.AllocError? {
      return AllocError;
    }
    var tokens := stored.slots;
    tokens[count] := Null;
    NullTerminatedIsArgVector(tokens[..], Split(line));
    r := Allocated(tokens);
  }

  /** The walk execvp makes over its argument vector: read pointers until
      the NULL sentinel. It recovers exactly the stored words. */
  method ReadArguments(slots: array<Slot>, ghost words: seq<string>) returns (argv: seq<string>)
    requires NullTerminated(slots[..], words)
    ensures argv == words
  {
    var i := 0;
    argv := [];
    while slots[i].Ptr?
      invariant 0 <= i <= |words| && argv == words[..i]
      decreases |words| - i
    {
      argv := argv + [slots[i].text];
      i := i + 1;
    }
  }
}
