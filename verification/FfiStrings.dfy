/**
 Text across the C boundary, and the last-error cell of one thread. Text is a sequence of characters
 here; in UTF-8 a zero byte stands for NUL and for no other character, so the scans agree.
 */
module FfiStrings {
  import opened Prelude
  import opened Text

  const NUL := '\0'

  // ---------------------------------------------------------------- one string

  /** `sanitize_message`: every NUL becomes a space. */
  function Sanitize(text: string): (clean: string)
    ensures |clean| == |text| && NUL !in clean
  {
    seq(|text|, i requires 0 <= i < |text| => if text[i] == NUL then ' ' else text[i])
  }

  /** `CString::new`: the text with its terminator, or nothing when the text holds a NUL itself. */
  function CStringNew(text: string): Option<string> {
    if NUL in text then None else Some(text + [NUL])
  }

  /** `string_into_raw`: what the returned pointer leads to. */
  function StringIntoRaw(text: string): Option<string> {
    CStringNew(Sanitize(text))
  }

  /** What lies before the first NUL. */
  function UntilNul(memory: string): (text: string)
    requires NUL in memory
    ensures text + [NUL] <= memory && NUL !in text
  {
    if memory[0] == NUL then [] else [memory[0]] + UntilNul(memory[1..])
  }

  lemma {:induction false} UntilNulIsUnique(memory: string, text: string)
    requires text + [NUL] <= memory && NUL !in text
    ensures NUL in memory && UntilNul(memory) == text
  {
    assert memory[|text|] == NUL;
    if text != [] {
      assert memory[0] == text[0];
      assert text[1..] + [NUL] <= memory[1..];
      UntilNulIsUnique(memory[1..], text[1..]);
    }
  }

  /** The length loop of `readCString`; the memory holds a terminator, as every C string does. */
  method ReadCString(memory: Option<string>) returns (text: string)
    requires memory.Some? ==> NUL in memory.value
    ensures memory.None? ==> text == ""
    ensures memory.Some? ==> text == UntilNul(memory.value)
  {
    if memory.None? {
      return "";
    }
    var length := 0;
    while memory.value[length] != NUL
      invariant length < |memory.value|
      invariant NUL !in memory.value[..length]
      invariant exists k :: length <= k < |memory.value| && memory.value[k] == NUL
      decreases |memory.value| - length
    {
      length := length + 1;
    }
    text := memory.value[..length];
    UntilNulIsUnique(memory.value, text);
  }

  method MakeCString(value: string) returns (memory: string)
    ensures memory == value + [NUL] && NUL in memory
  {
    memory := value + [NUL];
    assert memory[|value|] == NUL;
  }

  /** A string handed to the caller always has a pointer, and the caller reads the sanitised text. */
  lemma OwnedStringReadsBack(text: string)
    ensures StringIntoRaw(text).Some?
    ensures NUL in StringIntoRaw(text).value && UntilNul(StringIntoRaw(text).value) == Sanitize(text)
    ensures forall i :: 0 <= i < |text| ==> Sanitize(text)[i] == if text[i] == NUL then ' ' else text[i]
    ensures Sanitize(text) == text <==> NUL !in text
  {
    UntilNulIsUnique(StringIntoRaw(text).value, Sanitize(text));
    if NUL !in text {
      assert Sanitize(text) == text;
    }
  }

  /** A string handed to the library is read up to its first NUL: whole exactly when it has none. */
  lemma PassedStringReadsBack(value: string)
    ensures NUL in value + [NUL]
    ensures UntilNul(value + [NUL]) <= value
    ensures UntilNul(value + [NUL]) == value <==> NUL !in value
  {
    var memory := value + [NUL];
    assert memory[|value|] == NUL;
    if NUL !in value {
      UntilNulIsUnique(memory, value);
    } else {
      var text := UntilNul(memory);
      assert text == memory[..|text|];
      assert text == value[..|text|];
    }
  }

  // ---------------------------------------------------------------- an array of strings

  datatype FieldError = MustNotBeNull(index: nat) | MustNotBeEmpty(index: nat)

  function RequiredCString(memory: Option<string>, index: nat): Result<string, FieldError>
    requires memory.Some? ==> NUL in memory.value
  {
    match memory
    case None => Err(MustNotBeNull(index))
    case Some(m) => if Trim(UntilNul(m)) == "" then Err(MustNotBeEmpty(index)) else Ok(UntilNul(m))
  }

  predicate AllTerminated(memories: seq<Option<string>>) {
    forall i :: 0 <= i < |memories| && memories[i].Some? ==> NUL in memories[i].value
  }

  /** `copy_c_string_array`: all strings in order, or the error of the first bad one. */
  function CopyCStringArray(memories: seq<Option<string>>): (r: Result<seq<string>, FieldError>)
    requires AllTerminated(memories)
    ensures r.Ok? ==> |r.value| == |memories|
  {
    if |memories| == 0 then Ok([])
    else
      var front :- CopyCStringArray(memories[..|memories| - 1]);
      var last :- RequiredCString(memories[|memories| - 1], |memories| - 1);
      Ok(front + [last])
  }

  /** An array that is not copied fails for its first string that is missing or blank. */
  lemma {:induction false} CopyFails(memories: seq<Option<string>>) returns (i: nat)
    requires AllTerminated(memories) && CopyCStringArray(memories).Err?
    ensures i < |memories|
    ensures if memories[i].None? then CopyCStringArray(memories) == Err(MustNotBeNull(i))
            else
              && Trim(UntilNul(memories[i].value)) == ""
              && CopyCStringArray(memories) == Err(MustNotBeEmpty(i))
    ensures forall j :: 0 <= j < i ==> memories[j].Some? && Trim(UntilNul(memories[j].value)) != ""
  {
    var front := memories[..|memories| - 1];
    if CopyCStringArray(front).Err? {
      i := CopyFails(front);
      assert forall j :: 0 <= j <= i ==> front[j] == memories[j];
    } else {
      i := |front|;
      CopySucceeds(front);
      assert forall j :: 0 <= j < i ==> front[j] == memories[j];
    }
  }

  lemma {:induction false} CopySucceeds(memories: seq<Option<string>>)
    requires AllTerminated(memories) && CopyCStringArray(memories).Ok?
    ensures forall j :: 0 <= j < |memories| ==>
              && memories[j].Some? && Trim(UntilNul(memories[j].value)) != ""
              && CopyCStringArray(memories).value[j] == UntilNul(memories[j].value)
  {
    if |memories| > 0 {
      var front := memories[..|memories| - 1];
      CopySucceeds(front);
      assert forall j :: 0 <= j < |front| ==> front[j] == memories[j];
    }
  }

  method MakeCStringArray(values: seq<string>) returns (pointers: seq<Option<string>>)
    ensures |pointers| == |values|
    ensures forall i :: 0 <= i < |values| ==> pointers[i] == Some(values[i] + [NUL])
  {
    pointers := [];
    for k := 0 to |values|
      invariant |pointers| == k
      invariant forall i :: 0 <= i < k ==> pointers[i] == Some(values[i] + [NUL])
    {
      var buffer := MakeCString(values[k]);
      pointers := pointers + [Some(buffer)];
    }
  }

  /** One string arrives as it was given exactly when it is not blank and holds no NUL. */
  lemma KeyColumnArrives(value: string, index: nat)
    ensures NUL in value + [NUL]
    ensures RequiredCString(Some(value + [NUL]), index) == Ok(value) <==> Carriable(value)
  {
    PassedStringReadsBack(value);
  }

  ghost predicate Carriable(value: string) {
    NUL !in value && Trim(value) != ""
  }

  /** The key columns arrive as they were given exactly when none is blank and none holds a NUL. */
  lemma {:induction false} KeyColumnsArrive(values: seq<string>, pointers: seq<Option<string>>)
    requires |pointers| == |values| && AllTerminated(pointers)
    requires forall i :: 0 <= i < |values| ==> pointers[i] == Some(values[i] + [NUL])
    ensures CopyCStringArray(pointers) == Ok(values) <==>
              forall i :: 0 <= i < |values| ==> Carriable(values[i])
  {
    if |values| > 0 {
      var n := |values| - 1;
      var front := values[..n];
      KeyColumnsArrive(front, pointers[..n]);
      KeyColumnArrives(values[n], n);
      assert values == front + [values[n]];
      assert forall i :: 0 <= i < n ==> front[i] == values[i];
      LastSplit(CopyCStringArray(pointers), CopyCStringArray(pointers[..n]), RequiredCString(pointers[n], n), values);
    }
  }

  /** A collected result is the expected one exactly when its front and its last element are. */
  lemma LastSplit(all: Result<seq<string>, FieldError>, front: Result<seq<string>, FieldError>,
                  last: Result<string, FieldError>, values: seq<string>)
    requires |values| > 0
    requires front.Ok? ==> |front.value| == |values| - 1
    requires all == if front.Err? then Err(front.error)
                    else if last.Err? then Err(last.error) else Ok(front.value + [last.value])
    ensures all == Ok(values) <==> front == Ok(values[..|values| - 1]) && last == Ok(values[|values| - 1])
  {
    assert values == values[..|values| - 1] + [values[|values| - 1]];
    if all == Ok(values) {
      assert front.value == (front.value + [last.value])[..|values| - 1];
    }
  }

  // ---------------------------------------------------------------- the last error of a thread

  /**
   One FFI call, as the cell sees it: most clear it first and then fail with a message or not;
   releasing, reading the error and the null tests leave it alone.
   */
  datatype FfiCall = Clearing(failure: Option<string>) | Neutral

  function AfterCall(cell: Option<string>, call: FfiCall): Option<string> {
    match call
    case Neutral => cell
    case Clearing(None) => None
    case Clearing(Some(message)) => CStringNew(Sanitize(message))
  }

  function AfterCalls(cell: Option<string>, calls: seq<FfiCall>): Option<string> {
    if |calls| == 0 then cell else AfterCall(AfterCalls(cell, calls[..|calls| - 1]), calls[|calls| - 1])
  }

  /** `i` is the last call that clears the cell. */
  ghost predicate LastClearing(calls: seq<FfiCall>, i: nat) {
    i < |calls| && calls[i].Clearing? && forall j :: i < j < |calls| ==> calls[j].Neutral?
  }

  /** After any calls the cell tells of the last one that clears it: set exactly when that call failed. */
  lemma {:induction false} ErrorIsOfLastClearing(cell: Option<string>, calls: seq<FfiCall>, i: nat)
    requires LastClearing(calls, i)
    ensures AfterCalls(cell, calls).Some? <==> calls[i].failure.Some?
    ensures calls[i].failure.Some? ==>
              && NUL in AfterCalls(cell, calls).value
              && UntilNul(AfterCalls(cell, calls).value) == Sanitize(calls[i].failure.value)
  {
    var n := |calls| - 1;
    if i < n {
      ErrorIsOfLastClearing(cell, calls[..n], i);
    } else if calls[i].failure.Some? {
      OwnedStringReadsBack(calls[i].failure.value);
    }
  }

  lemma {:induction false} ErrorStaysWithoutClearing(cell: Option<string>, calls: seq<FfiCall>)
    requires forall j :: 0 <= j < |calls| ==> calls[j].Neutral?
    ensures AfterCalls(cell, calls) == cell
  {
    if |calls| > 0 { ErrorStaysWithoutClearing(cell, calls[..|calls| - 1]); }
  }

  class LastErrorCell {
    var message: Option<string>

    constructor ()
      ensures message == None
    {
      message := None;
    }

    method SetLastError(text: string)
      modifies this
      ensures message == Some(Sanitize(text) + [NUL])
    {
      message := CStringNew(Sanitize(text));
    }

    method ClearLastError()
      modifies this
      ensures message == None
    {
      message := None;
    }

    /** A thread making its calls one after the other. */
    method MakeCalls(calls: seq<FfiCall>)
      modifies this
      ensures message == AfterCalls(old(message), calls)
    {
      for k := 0 to |calls|
        invariant message == AfterCalls(old(message), calls[..k])
      {
        assert calls[..k + 1][..k] == calls[..k];
        if calls[k].Clearing? {
          ClearLastError();
          if calls[k].failure.Some? {
            SetLastError(calls[k].failure.value);
          }
        }
      }
      assert calls[..|calls|] == calls;
    }
  }
}
