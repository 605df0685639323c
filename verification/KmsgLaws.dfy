/**
  * What ipc_kmsg_copyin_body answers to a body, by the fields of its items (ipc/ipc_kmsg.c): the exact condition for
  * each answer that depends on the message alone.
  */
module KmsgLaws {
  import opened PortTypes
  import opened KmsgLedger
  import opened KmsgCopyin

  // ---------------------------------------------------------------- one item

  predicate Ports(t: Word) { 16 <= t.name <= 21 }

  /** A bad type: ports of the wrong size, 64 bits inline and 32 out of line; unused bits; inline data to deallocate. */
  predicate BadType(t: Word) {
    || (Ports(t) && t.inline && t.size != 64)
    || (Ports(t) && !t.inline && t.size != 32)
    || t.unused != 0
    || (t.inline && t.deallocate)
  }

  /** The data of an inline item, or the address of another, ends within the body. */
  predicate DataFits(t: Word, p: nat, end: nat) {
    if t.inline then 8 * (p + 1) <= end && t.number * t.size <= 8 * (end - 8 * (p + 1)) else 8 * (p + 2) <= end
  }

  lemma LengthFits(t: Word, room: int)
    requires room >= 0
    ensures Length(t) <= room <==> t.number * t.size <= 8 * room
  {
    BitsProduct(t.number, t.size);
    var bits := Bits(t.number, t.size);
    CeilingFits(bits, room);
  }

  lemma CeilingFits(bits: nat, room: int)
    ensures (bits + 7) / 8 <= room <==> bits <= 8 * room
  {}

  /** The answer to one item, exactly. */
  lemma ItemAnswer(m: seq<Word>, p: nat, end: nat)
    requires end <= 8 * |m|
    ensures ItemCheck(m, p, end) == InvalidType <==> 8 * (p + 1) <= end && BadType(m[p])
    ensures ItemCheck(m, p, end) == TooSmall <==> end < 8 * (p + 1) || (!BadType(m[p]) && !DataFits(m[p], p, end))
    ensures ItemCheck(m, p, end) in {Success, InvalidType, TooSmall}
  {
    if 8 * (p + 1) <= end {
      LengthFits(m[p], end - 8 * (p + 1));
    }
  }

  // ---------------------------------------------------------------- the whole body

  /** The place behind an item: an inline one takes up as many words as its bits need. */
  predicate Behind(t: Word, p: nat, q: nat) {
    if t.inline then p + 1 <= q && t.number * t.size <= 64 * (q - p - 1) < t.number * t.size + 64 else q == p + 2
  }

  lemma CeilingWords(bits: nat, w: int)
    ensures ((bits + 7) / 8 + 7) / 8 == w <==> bits <= 64 * w < bits + 64
  {}

  lemma NextBehind(t: Word, p: nat, q: nat)
    ensures Behind(t, p, q) <==> q == Next(t, p)
  {
    BitsProduct(t.number, t.size);
    CeilingWords(Bits(t.number, t.size), q - p - 1);
  }

  ghost predicate GoodItem(m: seq<Word>, p: nat, end: nat) {
    8 * (p + 1) <= end <= 8 * |m| && !BadType(m[p]) && DataFits(m[p], p, end)
  }

  /** The places of good items one behind the other, from the first of the body on. */
  ghost predicate GoodItems(m: seq<Word>, ps: seq<nat>, end: nat) {
    && |ps| > 0 && ps[0] == 0
    && forall i {:trigger ps[i]} | 0 <= i < |ps| - 1 :: GoodItem(m, ps[i], end) && Behind(m[ps[i]], ps[i], ps[i + 1])
  }

  /** What stands at the end of the good items decides the answer. */
  ghost predicate Answers(m: seq<Word>, p: nat, end: nat, r: Return)
    requires end <= 8 * |m|
  {
    if 8 * p >= end then r == Success
    else if end < 8 * (p + 1) then r == TooSmall
    else if BadType(m[p]) then r == InvalidType
    else !DataFits(m[p], p, end) && r == TooSmall
  }

  lemma MoreItems(m: seq<Word>, ps: seq<nat>, q: nat, end: nat)
    requires GoodItems(m, ps, end)
    requires GoodItem(m, ps[|ps| - 1], end) && Behind(m[ps[|ps| - 1]], ps[|ps| - 1], q)
    ensures GoodItems(m, ps + [q], end)
  {
    var qs := ps + [q];
    forall i | 0 <= i < |qs| - 1 ensures GoodItem(m, qs[i], end) && Behind(m[qs[i]], qs[i], qs[i + 1]) {
      if i < |ps| - 1 {
        assert qs[i] == ps[i] && qs[i + 1] == ps[i + 1];
      }
    }
  }

  lemma {:induction false} CheckFrom(m: seq<Word>, ps: seq<nat>, end: nat) returns (qs: seq<nat>)
    requires end <= 8 * |m| && GoodItems(m, ps, end)
    ensures GoodItems(m, qs, end) && Answers(m, qs[|qs| - 1], end, Check(m, ps[|ps| - 1], end))
    decreases end - 8 * ps[|ps| - 1]
  {
    var p := ps[|ps| - 1];
    qs := ps;
    if 8 * p < end {
      ItemAnswer(m, p, end);
      if ItemCheck(m, p, end) == Success {
        NextBehind(m[p], p, Next(m[p], p));
        MoreItems(m, ps, Next(m[p], p), end);
        qs := CheckFrom(m, ps + [Next(m[p], p)], end);
      }
    }
  }

  /** The answer that the message alone determines: that to the first item that is not good, if there is one. */
  lemma BodyAnswer(m: seq<Word>, end: nat) returns (ps: seq<nat>)
    requires end <= 8 * |m|
    ensures GoodItems(m, ps, end) && Answers(m, ps[|ps| - 1], end, Check(m, 0, end))
  {
    ps := CheckFrom(m, [0], end);
  }

  /** A body of good items alone. */
  ghost predicate GoodBody(m: seq<Word>, end: nat) {
    exists ps :: GoodItems(m, ps, end) && 8 * ps[|ps| - 1] >= end
  }

  lemma {:induction false} GoodFrom(m: seq<Word>, ps: seq<nat>, end: nat, i: nat)
    requires end <= 8 * |m| && GoodItems(m, ps, end) && 8 * ps[|ps| - 1] >= end && i < |ps|
    ensures Check(m, ps[i], end) == Success
    decreases |ps| - i
  {
    if 8 * ps[i] < end {
      ItemAnswer(m, ps[i], end);
      NextBehind(m[ps[i]], ps[i], ps[i + 1]);
      GoodFrom(m, ps, end, i + 1);
    }
  }

  lemma GoodBodyPasses(m: seq<Word>, end: nat)
    requires end <= 8 * |m|
    ensures GoodBody(m, end) <==> Check(m, 0, end) == Success
  {
    if GoodBody(m, end) {
      var ps :| GoodItems(m, ps, end) && 8 * ps[|ps| - 1] >= end;
      GoodFrom(m, ps, end, 0);
    }
    if Check(m, 0, end) == Success {
      var ps := BodyAnswer(m, end);
    }
  }

  /**
    * ipc_kmsg_copyin_body on any body: one of good items fails only because a right or memory cannot be had; TOO_SMALL
    * and INVALID_TYPE are the answers to the first item that is not good.
    */
  method CopyInJudged(msg: Message, k: Kernel) returns (r: Return, ghost ps: seq<nat>)
    requires msg.Valid() && k.Valid() && msg.request == 0 && msg.Header() <= k.held
    modifies k, msg`circular, msg`words, msg`complex
    ensures GoodItems(old(msg.words), ps, msg.size) && msg.size <= 8 * |old(msg.words)|
    ensures GoodBody(old(msg.words), msg.size) ==> r in {Success, InvalidRight, InvalidMemory}
    ensures r in {Success, TooSmall, InvalidType} ==> Answers(old(msg.words), ps[|ps| - 1], msg.size, r)
  {
    GoodBodyPasses(msg.words, msg.size);
    ps := BodyAnswer(msg.words, msg.size);
    r := msg.CopyInBody(k);
  }

  // ---------------------------------------------------------------- names and marks

  /** What the receiver sees of a right: receive, send for all three kinds of send, and send-once for the others. */
  lemma NamesReceived(name: nat)
    requires 16 <= name <= 21
    ensures ReceivedName(name) == 16 <==> name == 16
    ensures ReceivedName(name) == 17 <==> name == 17 || name == 19 || name == 20
    ensures ReceivedName(name) == 18 <==> name == 18 || name == 21
  {}

  /** A body of good items keeps the mark COMPLEX exactly if one of them is out of line or has ports. */
  lemma {:induction false} CarriesFrom(m: seq<Word>, ps: seq<nat>, end: nat, i: nat)
    requires end <= 8 * |m| && GoodItems(m, ps, end) && 8 * ps[|ps| - 1] >= end && i < |ps|
    ensures AnyCarries(m, ps[i], end)
      <==> exists j :: i <= j < |ps| - 1 && 8 * ps[j] < end && (!m[ps[j]].inline || Ports(m[ps[j]]))
    decreases |ps| - i
  {
    if i + 1 < |ps| {
      assert GoodItem(m, ps[i], end);
      NextBehind(m[ps[i]], ps[i], ps[i + 1]);
      CarriesFrom(m, ps, end, i + 1);
      assert AnyCarries(m, ps[i], end) <==> (!m[ps[i]].inline || Ports(m[ps[i]])) || AnyCarries(m, ps[i + 1], end);
    }
  }
}
