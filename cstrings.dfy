/**
 * NUL-terminated character buffers and the in-place whitespace trim `stripwhite`
 * (code/lsh.c:278-299).
 *
 * A C string is modelled as a buffer `seq<char>` (or an `array<char>` for the
 * in-place method) that contains at least one NUL; its contents are the
 * characters before the first NUL.
 */
module CStrings {
  import opened Wrappers

  const NUL: char := '\0'

  /** The largest value of C's `size_t` on a 64-bit target. */
  const SIZE_MAX: nat := 0xFFFF_FFFF_FFFF_FFFF

  /** `isspace` in the "C" locale: space, \t, \n, \v, \f and \r. */
  predicate IsSpace(c: char): (b: bool)
    ensures b ==> c != NUL && c <= ' '
  {
    c == ' ' || c == '\t' || c == '\n' || c == '\U{B}' || c == '\U{C}' || c == '\r'
  }

  /** Every character of `s` is whitespace (the empty string included). */
  predicate Blank(s: seq<char>)
  {
    forall k :: 0 <= k < |s| ==> IsSpace(s[k])
  }

  /** Neither the first nor the last character of `t` is whitespace. */
  predicate Trimmed(t: seq<char>)
  {
    t == [] || (!IsSpace(t[0]) && !IsSpace(t[|t| - 1]))
  }

  /** `strlen`: the index of the first NUL of the buffer. */
  function StrLen(buf: seq<char>): (n: nat)
    requires NUL in buf
    ensures n < |buf| && buf[n] == NUL
    ensures forall k :: 0 <= k < n ==> buf[k] != NUL
  {
    if buf[0] == NUL then 0
    else
      assert buf == [buf[0]] + buf[1..];
      StrLen(buf[1..]) + 1
  }

  /** A position that has the defining properties of `strlen` is `strlen`. */
  lemma StrLenUnique(buf: seq<char>, n: nat)
    requires n < |buf| && buf[n] == NUL
    requires forall k :: 0 <= k < n ==> buf[k] != NUL
    ensures StrLen(buf) == n
  {
  }

  /** The characters of the C string held in `buf`: everything before the first NUL. */
  function CString(buf: seq<char>): (s: seq<char>)
    requires NUL in buf
    ensures NUL !in s
    ensures |s| < |buf| && buf[|s|] == NUL && s == buf[..|s|]
  {
    buf[..StrLen(buf)]
  }

  /** A NUL-free prefix followed by a NUL is the C string of the buffer. */
  lemma CStringUnique(buf: seq<char>, n: nat)
    requires n < |buf| && buf[n] == NUL
    requires forall k :: 0 <= k < n ==> buf[k] != NUL
    ensures CString(buf) == buf[..n]
  {
    StrLenUnique(buf, n);
  }

  /** The length of the maximal leading whitespace run of `s`. */
  function LeadEnd(s: seq<char>): (r: nat)
    ensures r <= |s|
    ensures forall k :: 0 <= k < r ==> IsSpace(s[k])
    ensures r < |s| ==> !IsSpace(s[r])
  {
    if s != [] && IsSpace(s[0]) then 1 + LeadEnd(s[1..]) else 0
  }

  lemma LeadEndUnique(s: seq<char>, r: nat)
    requires r <= |s|
    requires forall k :: 0 <= k < r ==> IsSpace(s[k])
    requires r < |s| ==> !IsSpace(s[r])
    ensures LeadEnd(s) == r
  {
  }

  /** Where the maximal trailing whitespace run of `s` begins. */
  function TrailStart(s: seq<char>): (r: nat)
    ensures r <= |s|
    ensures forall k :: r <= k < |s| ==> IsSpace(s[k])
    ensures 0 < r ==> !IsSpace(s[r - 1])
  {
    if s != [] && IsSpace(s[|s| - 1]) then TrailStart(s[..|s| - 1]) else |s|
  }

  lemma TrailStartUnique(s: seq<char>, r: nat)
    requires r <= |s|
    requires forall k :: r <= k < |s| ==> IsSpace(s[k])
    requires 0 < r ==> !IsSpace(s[r - 1])
    ensures TrailStart(s) == r
  {
  }

  /**
   * `s` with its maximal leading and trailing whitespace runs removed: a slice of
   * `s` that starts where the leading run ends, leaves only whitespace after it,
   * and has no whitespace at either end; it is empty exactly when `s` is blank.
   */
  function Trim(s: seq<char>): (t: seq<char>)
    ensures Trimmed(t)
    ensures LeadEnd(s) + |t| <= |s| && t == s[LeadEnd(s)..LeadEnd(s) + |t|]
    ensures forall k :: LeadEnd(s) + |t| <= k < |s| ==> IsSpace(s[k])
    ensures t == [] <==> Blank(s)
  {
    var u := s[LeadEnd(s)..];
    u[..TrailStart(u)]
  }

  /**
   * Trimming is determined by its result alone: whenever `s` splits into a blank
   * prefix, a trimmed middle and a blank suffix, the middle is `Trim(s)`.
   */
  lemma {:induction false} TrimUnique(s: seq<char>, pre: seq<char>, mid: seq<char>, post: seq<char>)
    requires s == pre + mid + post
    requires Blank(pre) && Trimmed(mid) && Blank(post)
    ensures Trim(s) == mid
  {
    if mid == [] {
      assert Blank(s) by {
        forall k | 0 <= k < |s| ensures IsSpace(s[k]) {
          if k < |pre| { assert s[k] == pre[k]; } else { assert s[k] == post[k - |pre|]; }
        }
      }
    } else {
      assert s[|pre|] == mid[0];
      LeadEndUnique(s, |pre|);
      var u := s[LeadEnd(s)..];
      assert u == mid + post;
      assert u[|mid| - 1] == mid[|mid| - 1];
      TrailStartUnique(u, |mid|);
      assert u[..|mid|] == mid;
    }
  }

  /** Trimming an already trimmed string leaves it unchanged. */
  lemma TrimIdempotent(s: seq<char>)
    ensures Trim(Trim(s)) == Trim(s)
  {
    var t := Trim(s);
    assert t == [] + t + [];
    TrimUnique(t, [], t, []);
  }

  /** A string with no whitespace at either end is its own trim. */
  lemma TrimOfTrimmed(t: seq<char>)
    requires Trimmed(t)
    ensures Trim(t) == t
  {
    assert t == [] + t + [];
    TrimUnique(t, [], t, []);
  }

  /**
   * `memmove(string, string + src, count)` where the destination is the start of
   * the buffer: the `count` characters at `src` move to the front, the rest of
   * the buffer is untouched.  Copying forward is correct because the destination
   * lies below the source.
   */
  method MemMoveDown(a: array<char>, src: nat, count: nat)
    requires src + count <= a.Length
    modifies a
    ensures a[..count] == old(a[src..src + count])
    ensures a[count..] == old(a[count..])
  {
    var k := 0;
    while k < count
      invariant 0 <= k <= count
      invariant forall m :: 0 <= m < k ==> a[m] == old(a[src + m])
      invariant forall m :: k <= m < a.Length ==> a[m] == old(a[m])
    {
      a[k] := a[src + k];
      k := k + 1;
    }
  }

  /**
   * The buffer after the leading whitespace run of `lead` characters has been
   * moved down together with the terminator: `memmove(string, string + lead,
   * strlen(string + lead) + 1)`.  With `lead == 0` the code moves nothing, and
   * this is `buf` itself.
   */
  function Shifted(buf: seq<char>, lead: nat): (m: seq<char>)
    requires NUL in buf && lead <= StrLen(buf)
    ensures |m| == |buf|
    ensures m[StrLen(buf) - lead] == NUL
  {
    MoveFront(buf, lead, StrLen(buf))
  }

  /** The characters `lead .. n0` moved to the front, the rest as it was. */
  function MoveFront(buf: seq<char>, lead: nat, n0: nat): (m: seq<char>)
    requires lead <= n0 < |buf|
    ensures |m| == |buf|
    ensures forall k :: 0 <= k <= n0 - lead ==> m[k] == buf[lead + k]
  {
    buf[lead..n0 + 1] + buf[n0 - lead + 1..]
  }

  /**
   * After the move the C string is the old one without its first `lead`
   * characters, and the buffer beyond the new terminator keeps its old contents.
   */
  lemma ShiftedShape(buf: seq<char>, lead: nat)
    requires NUL in buf && lead <= StrLen(buf)
    ensures lead == 0 ==> Shifted(buf, lead) == buf
    ensures NUL in Shifted(buf, lead)
    ensures StrLen(Shifted(buf, lead)) == StrLen(buf) - lead
    ensures CString(Shifted(buf, lead)) == CString(buf)[lead..]
    ensures forall k :: StrLen(buf) - lead < k < |buf| ==> Shifted(buf, lead)[k] == buf[k]
  {
    ShiftedText(buf, lead);
    ShiftedTail(buf, lead, StrLen(buf));
  }

  lemma ShiftedText(buf: seq<char>, lead: nat)
    requires NUL in buf && lead <= StrLen(buf)
    ensures NUL in Shifted(buf, lead)
    ensures StrLen(Shifted(buf, lead)) == StrLen(buf) - lead
    ensures CString(Shifted(buf, lead)) == CString(buf)[lead..]
  {
    var n0 := StrLen(buf);
    var m := Shifted(buf, lead);
    var head := buf[lead..n0 + 1];
    assert m[..n0 - lead + 1] == head;
    assert m[n0 - lead] == NUL;
    assert forall k :: 0 <= k < n0 - lead ==> m[k] == buf[lead + k];
    StrLenUnique(m, n0 - lead);
    assert m[..n0 - lead] == buf[lead..n0];
  }

  lemma ShiftedTail(buf: seq<char>, lead: nat, n0: nat)
    requires NUL in buf && n0 == StrLen(buf) && lead <= n0
    ensures lead == 0 ==> Shifted(buf, lead) == buf
    ensures forall k :: n0 - lead < k < |buf| ==> Shifted(buf, lead)[k] == buf[k]
  {
    MoveFrontTail(buf, lead, n0);
  }

  lemma MoveFrontTail(buf: seq<char>, lead: nat, n0: nat)
    requires lead <= n0 < |buf|
    ensures lead == 0 ==> MoveFront(buf, lead, n0) == buf
    ensures forall k :: n0 - lead < k < |buf| ==> MoveFront(buf, lead, n0)[k] == buf[k]
  {
    var head := buf[lead..n0 + 1];
    var tail := buf[n0 - lead + 1..];
    if lead == 0 {
      assert head + tail == buf;
    }
    forall k | n0 - lead < k < |buf| ensures (head + tail)[k] == buf[k] {
      assert (head + tail)[k] == tail[k - |head|];
    }
  }

  /** Dropping the leading run first does not change the trim. */
  lemma TrimAfterLead(s: seq<char>)
    ensures Trim(s[LeadEnd(s)..]) == Trim(s)
  {
    var l := LeadEnd(s);
    var t := Trim(s);
    var u := s[l..];
    var post := s[l + |t|..];
    assert u == [] + t + post;
    assert Blank(post) by {
      forall k | 0 <= k < |post| ensures IsSpace(post[k]) {
        assert post[k] == s[l + |t| + k];
      }
    }
    TrimUnique(u, [], t, post);
  }

  /**
   * The last step of `stripwhite`: when the C string of `m` starts with a
   * non-space and the backward scan stopped at `j`, writing NUL at `j + 1`
   * leaves the trim of that C string.
   */
  lemma FinishTrim(m: seq<char>, j: nat)
    requires NUL in m && j < StrLen(m)
    requires j == 0 || !IsSpace(m[j])
    requires forall k :: j < k < StrLen(m) ==> IsSpace(m[k])
    ensures NUL in m[j + 1 := NUL]
    ensures !IsSpace(m[0]) ==> CString(m[j + 1 := NUL]) == Trim(CString(m))
  {
    var out := m[j + 1 := NUL];
    assert out[j + 1] == NUL;
    if !IsSpace(m[0]) {
      var u := CString(m);
      LeadEndUnique(u, 0);
      TrailStartUnique(u, j + 1);
      CStringUnique(out, j + 1);
      assert out[..j + 1] == u[..j + 1];
    }
  }

  /**
   * Where the first loop of `stripwhite` stops: at the end of the leading
   * whitespace run of the C string, never past its terminator.
   */
  lemma LeadingRun(buf: seq<char>, lead: nat)
    requires NUL in buf && lead < |buf|
    requires forall k :: 0 <= k < lead ==> IsSpace(buf[k])
    requires !IsSpace(buf[lead])
    ensures lead <= StrLen(buf)
    ensures lead == LeadEnd(CString(buf))
  {
    LeadEndUnique(CString(buf), lead);
  }

  /**
   * `stripwhite`, corrected: trims the C string held in `a` in place.  The
   * C string afterwards is the trim of the one before, and nothing beyond the
   * old terminator changes.  Unlike the code as written (see
   * `StripWhiteAsWritten`), an empty or blank string is left empty instead of
   * scanning back from index SIZE_MAX.
   */
  method StripWhite(a: array<char>)
    requires NUL in a[..]
    modifies a
    ensures NUL in a[..]
    ensures CString(a[..]) == Trim(CString(old(a[..])))
    ensures forall k :: StrLen(old(a[..])) <= k < a.Length ==> a[k] == old(a[k])
  {
    ghost var buf := a[..];
    var i := SkipLeadingSpace(a);
    if i > 0 {
      ShiftDown(a, i);
    } else {
      ShiftedTail(buf, 0, StrLen(buf));
    }
    MovedText(buf, i);
    TrimEnd(a);
  }

  /**
   * `memmove(string, string + i, strlen(string + i) + 1)`: the C string from
   * index `lead` on, terminator included, moves to the front of the buffer.
   */
  method ShiftDown(a: array<char>, lead: nat)
    requires NUL in a[..] && lead <= StrLen(a[..])
    modifies a
    ensures a[..] == Shifted(old(a[..]), lead)
  {
    ghost var buf := a[..];
    ghost var n0 := StrLen(buf);
    StrLenFrom(buf, lead);
    var count := StrLen(a[lead..]) + 1;
    MemMoveDown(a, lead, count);
    MoveFrontOf(a[..], buf, lead, n0);
  }

  /** `strlen(string + lead)` is `strlen(string) - lead` while `lead` is inside the C string. */
  lemma StrLenFrom(buf: seq<char>, lead: nat)
    requires NUL in buf && lead <= StrLen(buf)
    ensures NUL in buf[lead..] && StrLen(buf[lead..]) == StrLen(buf) - lead
  {
    var n0 := StrLen(buf);
    assert buf[lead..][n0 - lead] == NUL;
    StrLenUnique(buf[lead..], n0 - lead);
  }

  lemma MoveFrontOf(after: seq<char>, buf: seq<char>, lead: nat, n0: nat)
    requires lead <= n0 < |buf| && |after| == |buf|
    requires after[..n0 - lead + 1] == buf[lead..lead + (n0 - lead + 1)]
    requires after[n0 - lead + 1..] == buf[n0 - lead + 1..]
    ensures after == MoveFront(buf, lead, n0)
  {
    assert after == after[..n0 - lead + 1] + after[n0 - lead + 1..];
  }

  /** What the move leaves behind, as `TrimEnd` needs it. */
  lemma MovedText(buf: seq<char>, lead: nat)
    requires NUL in buf && lead <= StrLen(buf) && lead == LeadEnd(CString(buf))
    ensures NUL in Shifted(buf, lead)
    ensures StrLen(Shifted(buf, lead)) <= StrLen(buf)
    ensures CString(Shifted(buf, lead)) == [] || !IsSpace(CString(Shifted(buf, lead))[0])
    ensures Trim(CString(Shifted(buf, lead))) == Trim(CString(buf))
    ensures forall k :: StrLen(Shifted(buf, lead)) < k < |buf| ==> Shifted(buf, lead)[k] == buf[k]
  {
    ShiftedShape(buf, lead);
    TrimAfterLead(CString(buf));
  }

  /**
   * Lines 292-298 of `stripwhite`, corrected: scan back from the last character
   * over trailing whitespace and write NUL after the stop position; an empty
   * string is left as it is.  For a C string that does not start with
   * whitespace the result is its trim; only the terminator moves.
   */
  method TrimEnd(a: array<char>)
    requires NUL in a[..]
    modifies a
    ensures NUL in a[..]
    ensures CString(old(a[..])) == [] || !IsSpace(CString(old(a[..]))[0]) ==>
              CString(a[..]) == Trim(CString(old(a[..])))
    ensures forall k :: 0 <= k < a.Length && k != StrLen(a[..]) ==> a[k] == old(a[k])
  {
    ghost var m := a[..];
    var n := StrLen(a[..]);
    if n == 0 {
      return;
    }
    var i := ScanBackOverSpace(a, n - 1);
    FinishTrim(m, i);
    a[i + 1] := NUL;
    assert a[..] == m[i + 1 := NUL];
  }

  /**
   * The first loop of `stripwhite`: `while (isspace(string[i])) i++;`.  It stops
   * at the end of the leading whitespace run of the C string.
   */
  method SkipLeadingSpace(a: array<char>) returns (i: nat)
    requires NUL in a[..]
    ensures i <= StrLen(a[..])
    ensures i == LeadEnd(CString(a[..]))
  {
    ghost var n0 := StrLen(a[..]);
    i := 0;
    while IsSpace(a[i])
      invariant 0 <= i <= n0
      invariant forall k :: 0 <= k < i ==> IsSpace(a[k])
      decreases n0 - i
    {
      i := i + 1;
    }
    LeadingRun(a[..], i);
  }

  /**
   * The second loop of `stripwhite`: `while (i > 0 && isspace(string[i])) i--;`
   * from `start`, here only ever called with an in-bounds start.  It stops at
   * index 0 or at a non-space, with only whitespace between the stop and `start`.
   */
  method ScanBackOverSpace(a: array<char>, start: nat) returns (i: nat)
    requires start < a.Length
    ensures i <= start
    ensures i == 0 || !IsSpace(a[i])
    ensures forall k :: i < k <= start ==> IsSpace(a[k])
  {
    i := start;
    while i > 0 && IsSpace(a[i])
      invariant 0 <= i <= start
      invariant forall k :: i < k <= start ==> IsSpace(a[k])
    {
      i := i - 1;
    }
  }

  /** C's `size_t` subtraction: wrap-around modulo SIZE_MAX + 1. */
  function SizeSub(x: nat, y: nat): (r: nat)
    requires x <= SIZE_MAX && y <= SIZE_MAX
    ensures r <= SIZE_MAX
    ensures x >= y ==> r == x - y
    ensures x < y ==> r == SIZE_MAX + 1 - (y - x)
  {
    (x - y) % (SIZE_MAX + 1)
  }

  /** What reading outside the buffer looks like in the model. */
  datatype Fault = OutOfBoundsRead(index: nat)

  /**
   * The trailing scan `while (i > 0 && isspace(string[i])) i--;` started at `i`;
   * reading `string[i]` outside the buffer is a fault.  On success the result is
   * the position where the scan stopped, and every read was in bounds.
   */
  function ScanBack(buf: seq<char>, i: nat): (r: Result<nat, Fault>)
    requires |buf| > 0
    ensures r.Ok? ==> i < |buf| && r.value <= i
    ensures r.Ok? ==> r.value == 0 || !IsSpace(buf[r.value])
    ensures r.Ok? ==> forall k :: r.value < k <= i ==> IsSpace(buf[k])
    ensures r.Err? ==> r.error.index >= |buf| && r.error.index == i
    ensures i < |buf| ==> r.Ok?
    decreases i
  {
    if i == 0 then Ok(0)
    else if i >= |buf| then Err(OutOfBoundsRead(i))
    else if IsSpace(buf[i]) then ScanBack(buf, i - 1)
    else Ok(i)
  }

  /**
   * `stripwhite` as written, on a buffer value: skip the leading run
   * (`LeadEnd`), move the rest down with the terminator (`Shifted`), then
   * `TrimEndAsWritten`.  The result is the new buffer, or the out-of-bounds read
   * that the code performs.
   */
  function StripWhiteAsWritten(buf: seq<char>): (r: Result<seq<char>, Fault>)
    requires NUL in buf && |buf| <= SIZE_MAX
    ensures r.Ok? ==> |r.value| == |buf|
  {
    var lead := LeadEnd(buf);
    assert lead <= StrLen(buf);
    ShiftedText(buf, lead);
    TrimEndAsWritten(Shifted(buf, lead))
  }

  /**
   * The second half of `stripwhite` as written: `i = strlen(string) - 1` in
   * `size_t` arithmetic, the backward scan from `i`, and the NUL written after
   * the stop position.  An empty string makes `i` SIZE_MAX and the first read
   * falls outside the buffer.
   */
  function TrimEndAsWritten(m: seq<char>): (r: Result<seq<char>, Fault>)
    requires NUL in m && |m| <= SIZE_MAX
    ensures r.Ok? ==> |r.value| == |m|
    ensures r.Err? <==> StrLen(m) == 0
    ensures r.Err? ==> r.error == OutOfBoundsRead(SIZE_MAX)
    ensures r.Ok? && !IsSpace(m[0]) ==> NUL in r.value && CString(r.value) == Trim(CString(m))
  {
    var i := SizeSub(StrLen(m), 1);
    match ScanBack(m, i)
    case Err(f) => Err(f)
    case Ok(j) =>
      FinishTrim(m, j);
      Ok(m[j + 1 := NUL])
  }

  /**
   * The defect of the code as written: it faults exactly when the string is empty
   * or blank (the index read is SIZE_MAX, past any buffer); otherwise its C string
   * is the trim of the input.
   */
  lemma StripWhiteAsWrittenFaults(buf: seq<char>)
    requires NUL in buf && |buf| <= SIZE_MAX
    ensures StripWhiteAsWritten(buf).Err? <==> Blank(CString(buf))
    ensures StripWhiteAsWritten(buf).Err? ==> StripWhiteAsWritten(buf).error == OutOfBoundsRead(SIZE_MAX)
    ensures StripWhiteAsWritten(buf).Ok? ==>
              NUL in StripWhiteAsWritten(buf).value &&
              CString(StripWhiteAsWritten(buf).value) == Trim(CString(buf))
  {
    var s := CString(buf);
    var lead := LeadEnd(buf);
    LeadEndUnique(s, lead);
    ShiftedText(buf, lead);
    TrimAfterLead(s);
    assert Blank(s) <==> lead == |s|;
  }

  /** The blank line the prompt loop hands to `stripwhite` whenever Enter is pressed alone. */
  lemma EmptyLineFaults()
    ensures StripWhiteAsWritten([NUL]) == Err(OutOfBoundsRead(SIZE_MAX))
  {
    StripWhiteAsWrittenFaults([NUL]);
  }
}
