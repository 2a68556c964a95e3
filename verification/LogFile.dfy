/** Reading one day's log file: `parseMessagesBefore` and `parseMessagesAfter` of `msgstore/fs.go`. */
module LogFile {
  import opened Seqs
  import opened Text
  import opened Clock
  import Ring

  /** Reads one line of the file of the given day. */
  type Decoder<!M> = (string, int) -> Decoded<M>

  type Selector<!M> = M -> bool

  // ---- Lines, as bufio.Scanner splits them

  function DropCR(line: string): string {
    if line != "" && line[|line| - 1] == '\r' then line[..|line| - 1] else line
  }

  function Tokens(bytes: string): seq<string> {
    var i := Find(bytes, "\n");
    if bytes == "" then []
    else if i < 0 then [DropCR(bytes)]
    else [DropCR(bytes[..i])] + Tokens(bytes[i + 1..])
  }

  /** The lines read after seeking to `offset` and dropping what is left of the line there. */
  function TokensFrom(bytes: string, offset: int): seq<string> {
    if offset < 0 then Tokens(bytes) else
    var tokens := Tokens(bytes[if offset < |bytes| then offset else |bytes|..]);
    if tokens == [] then [] else tokens[1..]
  }

  // ---- What the two loops select

  /** What the loops do with one line, given the bound to be passed and the bound to stop at. */
  datatype Verdict<+M> = Fail | Skip | Stop | Keep(entry: Stamped<M>)

  function Judge<M>(d: Decoded<M>, after: Time, before: Time, selector: Selector<M>): Verdict<M> {
    if d.Malformed? then Fail
    else if d.Ignored? || !Before(after, d.time) then Skip
    else if !Before(d.time, before) then Stop
    else if !selector(d.msg) then Skip
    else Keep(Stamped(d.msg, d.time))
  }

  /** Messages after `end` that come before the first one at or after `ref`. */
  function ScanBefore<M>(tokens: seq<string>, decode: Decoder<M>, day: int, ref: Time, end: Time,
          selector: Selector<M>): Option<seq<Stamped<M>>>
  {
    if tokens == [] then Some([]) else
    match Judge(decode(tokens[0], day), end, ref, selector)
    case Fail => None
    case Skip => ScanBefore(tokens[1..], decode, day, ref, end, selector)
    case Stop => Some([])
    case Keep(x) => Prepend([x], ScanBefore(tokens[1..], decode, day, ref, end, selector))
  }

  /** The first `limit` messages after `ref` that come before the first one at or after `end`. */
  function ScanAfter<M>(tokens: seq<string>, decode: Decoder<M>, day: int, ref: Time, end: Time, limit: nat,
          selector: Selector<M>): Option<seq<Stamped<M>>>
  {
    if tokens == [] || limit == 0 then Some([]) else
    match Judge(decode(tokens[0], day), ref, end, selector)
    case Fail => None
    case Skip => ScanAfter(tokens[1..], decode, day, ref, end, limit, selector)
    case Stop => Some([])
    case Keep(x) => Prepend([x], ScanAfter(tokens[1..], decode, day, ref, end, limit - 1, selector))
  }

  function Prepend<T>(head: seq<T>, tail: Option<seq<T>>): (r: Option<seq<T>>)
    ensures head == [] ==> r == tail
    ensures tail == Some([]) ==> r == Some(head)
  {
    if tail.None? then None else
    assert [] + tail.value == tail.value && head + [] == head;
    Some(head + tail.value)
  }

  function LastOf<T>(items: Option<seq<T>>, n: nat): Option<seq<T>> {
    if items.None? then None else Some(LastN(items.value, n))
  }

  function FileTokens(file: Option<string>, offset: int): seq<string> {
    if file.None? then [] else TokensFrom(file.value, offset)
  }

  /** The newest `limit` selected messages of a day's file, kept in a ring while reading. */
  method ParseMessagesBefore<M(0)>(file: Option<string>, decode: Decoder<M>, ref: Time, end: Time, limit: nat,
          afterOffset: int, selector: Selector<M>)
    returns (r: Option<seq<Stamped<M>>>)
    requires limit > 0
    ensures r == LastOf(ScanBefore(FileTokens(file, afterOffset), decode, ref.day, ref, end, selector), limit)
  {
    if file.None? {
      return Some([]);
    }
    var historyRing := new Stamped<M>[limit];
    var cur := 0;
    var tokens := TokensFrom(file.value, afterOffset);
    ghost var picked: seq<Stamped<M>> := [];
    ghost var result := ScanBefore(tokens, decode, ref.day, ref, end, selector);
    var i := 0;
    assert tokens[0..] == tokens;
    while i < |tokens|
      invariant 0 <= i <= |tokens| && cur == |picked|
      invariant Ring.Holds(historyRing[..], picked, 0)
      invariant Prepend(picked, ScanBefore(tokens[i..], decode, ref.day, ref, end, selector)) == result
    {
      ScanBeforeAt(tokens, i, decode, ref.day, ref, end, selector, picked);
      var d := decode(tokens[i], ref.day);
      i := i + 1;
      if d.Malformed? {
        return None;
      } else if d.Ignored? || !Before(end, d.time) {
        continue;
      } else if !Before(d.time, ref) {
        assert Some(picked) == result;
        break;
      }
      if !selector(d.msg) {
        continue;
      }
      PutInRing(historyRing, cur, Stamped(d.msg, d.time), picked);
      picked := picked + [Stamped(d.msg, d.time)];
      cur := cur + 1;
    }
    assert Some(picked) == result;
    Ring.ItemsAreNewest(historyRing[..], picked);
    r := Some(Ring.Items(historyRing[..], cur));
  }

  /** Writes an item over the oldest one. */
  method PutInRing<T>(ring: array<T>, cur: nat, x: T, ghost items: seq<T>)
    requires ring.Length > 0 && cur == |items| && Ring.Holds(ring[..], items, 0)
    modifies ring
    ensures Ring.Holds(ring[..], items + [x], 0)
  {
    Ring.Put(ring[..], items, 0, x);
    ring[cur % ring.Length] := x;
  }

  /** One round of the loop. */
  lemma {:induction false} ScanBeforeAt<M>(tokens: seq<string>, i: nat, decode: Decoder<M>, day: int, ref: Time,
          end: Time, selector: Selector<M>, picked: seq<Stamped<M>>)
    requires i < |tokens|
    ensures Prepend(picked, ScanBefore(tokens[i..], decode, day, ref, end, selector))
         == match Judge(decode(tokens[i], day), end, ref, selector)
            case Fail => None
            case Skip => Prepend(picked, ScanBefore(tokens[i + 1..], decode, day, ref, end, selector))
            case Stop => Some(picked)
            case Keep(x) => Prepend(picked + [x], ScanBefore(tokens[i + 1..], decode, day, ref, end, selector))
  {
    assert tokens[i..][1..] == tokens[i + 1..];
    var v := Judge(decode(tokens[i], day), end, ref, selector);
    if v.Keep? {
      PrependStep(picked, v.entry, ScanBefore(tokens[i + 1..], decode, day, ref, end, selector));
    }
  }

  lemma {:induction false} PrependStep<T>(head: seq<T>, x: T, tail: Option<seq<T>>)
    ensures Prepend(head + [x], tail) == Prepend(head, Prepend([x], tail))
  {
    if tail.Some? {
      assert head + [x] + tail.value == head + ([x] + tail.value);
    }
  }

  /** The oldest `limit` selected messages of a day's file. */
  method ParseMessagesAfter<M>(file: Option<string>, decode: Decoder<M>, ref: Time, end: Time, limit: nat,
          selector: Selector<M>)
    returns (r: Option<seq<Stamped<M>>>)
    ensures r == ScanAfter(FileTokens(file, -1), decode, ref.day, ref, end, limit, selector)
  {
    if file.None? {
      return Some([]);
    }
    var history: seq<Stamped<M>> := [];
    var tokens := TokensFrom(file.value, -1);
    ghost var result := ScanAfter(tokens, decode, ref.day, ref, end, limit, selector);
    var i := 0;
    assert tokens[0..] == tokens;
    while i < |tokens| && |history| < limit
      invariant 0 <= i <= |tokens| && |history| <= limit
      invariant Prepend(history, ScanAfter(tokens[i..], decode, ref.day, ref, end, limit - |history|, selector))
          == result
    {
      assert tokens[i..][1..] == tokens[i + 1..];
      var d := decode(tokens[i], ref.day);
      i := i + 1;
      if d.Malformed? {
        return None;
      } else if d.Ignored? || !Before(ref, d.time) {
        continue;
      } else if !Before(d.time, end) {
        assert Some(history) == result;
        break;
      }
      if !selector(d.msg) {
        continue;
      }
      PrependStep(history, Stamped(d.msg, d.time), ScanAfter(tokens[i..], decode, ref.day, ref, end,
          limit - |history| - 1, selector));
      history := history + [Stamped(d.msg, d.time)];
    }
    assert Some(history) == result;
    r := Some(history);
  }

  // ---- The loops as filters

  /** The messages of a file, in file order. */
  function Entries<M>(tokens: seq<string>, decode: Decoder<M>, day: int): seq<Stamped<M>> {
    if tokens == [] then [] else
    var d := decode(tokens[0], day);
    (if d.Entry? then [Stamped(d.msg, d.time)] else []) + Entries(tokens[1..], decode, day)
  }

  predicate Clean<M>(tokens: seq<string>, decode: Decoder<M>, day: int) {
    forall i :: 0 <= i < |tokens| ==> !decode(tokens[i], day).Malformed?
  }

  predicate IsBetween<M>(e: Stamped<M>, start: Time, end: Time, selector: Selector<M>) {
    Before(start, e.time) && Before(e.time, end) && selector(e.msg)
  }

  function Between<M>(start: Time, end: Time, selector: Selector<M>): Stamped<M> -> bool {
    (e: Stamped<M>) => IsBetween(e, start, end, selector)
  }

  /** Once a message is at or after `ref`, so are the later ones: reading may stop there. */
  predicate CutAt<M>(entries: seq<Stamped<M>>, ref: Time) {
    forall i, j :: 0 <= i < j < |entries| && !Before(entries[i].time, ref) ==> !Before(entries[j].time, ref)
  }

  predicate SortedByTime<M>(entries: seq<Stamped<M>>) {
    forall i, j :: 0 <= i < j < |entries| ==> !Before(entries[j].time, entries[i].time)
  }

  lemma {:induction false} ScanBeforeFilters<M>(tokens: seq<string>, decode: Decoder<M>, day: int, ref: Time,
          end: Time, selector: Selector<M>)
    requires Clean(tokens, decode, day) && CutAt(Entries(tokens, decode, day), ref)
    ensures ScanBefore(tokens, decode, day, ref, end, selector)
         == Some(Filter(Entries(tokens, decode, day), Between(end, ref, selector)))
  {
    if tokens != [] {
      var d := decode(tokens[0], day);
      var rest := Entries(tokens[1..], decode, day);
      EntriesStep(tokens, decode, day, ref);
      ScanBeforeFilters(tokens[1..], decode, day, ref, end, selector);
      if d.Entry? {
        FilterCons(Stamped(d.msg, d.time), rest, Between(end, ref, selector));
        if Judge(d, end, ref, selector).Stop? {
          FilterNone(rest, Between(end, ref, selector));
        }
      }
    }
  }

  /** The entries of a file are its first line's entry, if any, and those of the rest; a cut carries over. */
  lemma {:induction false} EntriesStep<M>(tokens: seq<string>, decode: Decoder<M>, day: int, ref: Time)
    requires tokens != [] && CutAt(Entries(tokens, decode, day), ref)
    ensures var d, rest := decode(tokens[0], day), Entries(tokens[1..], decode, day);
            && CutAt(rest, ref)
            && Entries(tokens, decode, day) == (if d.Entry? then [Stamped(d.msg, d.time)] + rest else rest)
            && (d.Entry? && !Before(d.time, ref) ==> forall i :: 0 <= i < |rest| ==> !Before(rest[i].time, ref))
  {
    var d, rest, all := decode(tokens[0], day), Entries(tokens[1..], decode, day), Entries(tokens, decode, day);
    if d.Entry? {
      assert all[0] == Stamped(d.msg, d.time) && all[1..] == rest;
      forall i | 0 <= i < |rest| ensures rest[i] == all[i + 1] {}
    } else {
      assert all == rest;
    }
  }

  /** Reading forwards up to a limit gives the first of what reading without a limit gives. */
  lemma {:induction false} AfterIsFirst<M>(tokens: seq<string>, decode: Decoder<M>, day: int, ref: Time, end: Time,
          limit: nat, selector: Selector<M>)
    requires ScanBefore(tokens, decode, day, end, ref, selector).Some?
    ensures ScanAfter(tokens, decode, day, ref, end, limit, selector)
         == Some(FirstN(ScanBefore(tokens, decode, day, end, ref, selector).value, limit))
    decreases |tokens|
  {
    if tokens != [] && limit > 0 {
      var v := Judge(decode(tokens[0], day), ref, end, selector);
      if v.Keep? {
        AfterIsFirst(tokens[1..], decode, day, ref, end, limit - 1, selector);
        FirstNConcat([v.entry], ScanBefore(tokens[1..], decode, day, end, ref, selector).value, limit);
      } else if v.Skip? {
        AfterIsFirst(tokens[1..], decode, day, ref, end, limit, selector);
      }
    }
  }

  lemma {:induction false} ScanAfterFilters<M>(tokens: seq<string>, decode: Decoder<M>, day: int, ref: Time, end: Time,
          limit: nat, selector: Selector<M>)
    requires Clean(tokens, decode, day) && CutAt(Entries(tokens, decode, day), end)
    ensures ScanAfter(tokens, decode, day, ref, end, limit, selector)
         == Some(FirstN(Filter(Entries(tokens, decode, day), Between(ref, end, selector)), limit))
  {
    ScanBeforeFilters(tokens, decode, day, end, ref, selector);
    AfterIsFirst(tokens, decode, day, ref, end, limit, selector);
  }

  lemma {:induction false} SortedCuts<M>(entries: seq<Stamped<M>>, ref: Time)
    requires SortedByTime(entries)
    ensures CutAt(entries, ref)
  {
  }
}
