/** The IMAP cursor: which messages a poll reads, which it keeps, and where it leaves LastUID. UIDs and
    UIDVALIDITY follow section 2.3.1.1 of RFC 3501, the "n:*" range section 6.4.8. */
module Imap {
  import opened Common

  const UID_LIMIT := 0x1_0000_0000

  /** A message on the server; `parses` is whether its envelope can be read. */
  datatype Msg = Msg(uid: nat, parses: bool)

  datatype Cursor = Cursor(uidValidity: nat, lastUid: nat)

  /** UIDs are nonzero 32-bit numbers in strictly ascending order. */
  predicate IsMailbox(mb: seq<Msg>) {
    && (forall i :: 0 <= i < |mb| ==> 0 < mb[i].uid < UID_LIMIT)
    && (forall i, j :: 0 <= i < j < |mb| ==> mb[i].uid < mb[j].uid)
  }

  // ------------------------------------------------------------ uids as strings

  function Digit(n: nat): char
    requires n < 10
  {
    '0' + n as char
  }

  predicate IsDigit(c: char) {
    '0' <= c <= '9'
  }

  /** Decimal printing. */
  function Sprint(n: nat): string {
    if n < 10 then [Digit(n)] else Sprint(n / 10) + [Digit(n % 10)]
  }

  function DigitPrefix(s: string): string {
    if s == "" || !IsDigit(s[0]) then "" else [s[0]] + DigitPrefix(s[1..])
  }

  function ValueOf(digits: string): nat
    requires forall i :: 0 <= i < |digits| ==> IsDigit(digits[i])
  {
    if digits == "" then 0
    else
      var c := digits[|digits| - 1];
      assert IsDigit(c);
      ValueOf(digits[..|digits| - 1]) * 10 + (c as int - '0' as int)
  }

  lemma {:induction false} DigitPrefixIsDigits(s: string)
    ensures forall i :: 0 <= i < |DigitPrefix(s)| ==> IsDigit(DigitPrefix(s)[i])
    ensures (forall i :: 0 <= i < |s| ==> IsDigit(s[i])) ==> DigitPrefix(s) == s
  {
    if s != "" && IsDigit(s[0]) {
      DigitPrefixIsDigits(s[1..]);
    }
  }

  /** Scanning an unsigned 32-bit number: the leading digits, or 0 if there are none or too many. */
  function ParseUid(s: string): nat {
    var digits := DigitPrefix(s);
    DigitPrefixIsDigits(s);
    if digits == "" || ValueOf(digits) >= UID_LIMIT then 0 else ValueOf(digits)
  }

  lemma {:induction false} SprintDigits(n: nat)
    ensures Sprint(n) != "" && forall i :: 0 <= i < |Sprint(n)| ==> IsDigit(Sprint(n)[i])
    ensures ValueOf(Sprint(n)) == n
  {
    if n >= 10 {
      SprintDigits(n / 10);
      assert Sprint(n)[..|Sprint(n)| - 1] == Sprint(n / 10);
    } else {
      assert [Digit(n)][..0] == "";
    }
  }

  /** A UID survives being printed into the message and scanned back out. */
  lemma UidRoundTrip(n: nat)
    ensures ParseUid(Sprint(n)) == if n < UID_LIMIT then n else 0
  {
    SprintDigits(n);
    DigitPrefixIsDigits(Sprint(n));
  }

  // -------------------------------------------------------------- one poll

  function Between(mb: seq<Msg>, lo: nat, hi: nat): seq<Msg> {
    if mb == [] then []
    else (if lo <= mb[0].uid <= hi then [mb[0]] else []) + Between(mb[1..], lo, hi)
  }

  lemma {:induction false} BetweenMembers(mb: seq<Msg>, lo: nat, hi: nat, m: Msg)
    ensures m in Between(mb, lo, hi) <==> m in mb && lo <= m.uid <= hi
  {
    if mb != [] {
      BetweenMembers(mb[1..], lo, hi, m);
      assert m in mb <==> m == mb[0] || m in mb[1..];
    }
  }

  /** What the server returns for UID FETCH start:*; "*" is the highest UID, which the range always
      contains, and 0 on the wire also means "*". */
  function UidRange(mb: seq<Msg>, start: nat): seq<Msg>
    requires mb != []
  {
    var top := mb[|mb| - 1].uid;
    var from := if start == 0 then top else start;
    Between(mb, Min(from, top), Max(from, top))
  }

  function Limit(requested: int): nat {
    if requested <= 0 || requested > 500 then 200 else requested
  }

  /** The messages one fetch asks for: the newest `limit` on a first run, everything past LastUID later. */
  function Requested(mb: seq<Msg>, last: nat, limit: nat): seq<Msg>
    requires mb != []
  {
    if last == 0 then (if |mb| > limit then mb[|mb| - limit..] else mb)
    else UidRange(mb, (last + 1) % UID_LIMIT)
  }

  /** The server may answer in any order, each message once. */
  predicate IsAnswer(answer: seq<Msg>, requested: seq<Msg>) {
    && (forall m :: m in answer ==> m in requested)
    && (forall m :: m in requested ==> m in answer)
    && (forall i, j :: 0 <= i < j < |answer| ==> answer[i].uid != answer[j].uid)
  }

  predicate Keeps(m: Msg, last: nat) {
    m.parses && !(last > 0 && m.uid <= last)
  }

  function Kept(answer: seq<Msg>, last: nat): seq<Msg> {
    if answer == [] then []
    else Kept(answer[..|answer| - 1], last)
         + (if Keeps(answer[|answer| - 1], last) then [answer[|answer| - 1]] else [])
  }

  function Highest(messages: seq<Msg>, last: nat): nat {
    if messages == [] then last
    else Max(Highest(messages[..|messages| - 1], last), messages[|messages| - 1].uid)
  }

  /** The cursor after the UIDVALIDITY check. */
  function Checked(cursor: Cursor, uidValidity: nat): Cursor {
    if cursor.uidValidity != 0 && cursor.uidValidity != uidValidity then Cursor(uidValidity, 0)
    else Cursor(uidValidity, cursor.lastUid)
  }

  predicate ValidAnswer(mb: seq<Msg>, cursor: Cursor, limit: nat, answer: seq<Msg>) {
    if mb == [] then answer == [] else IsAnswer(answer, Requested(mb, cursor.lastUid, limit))
  }

  method FetchMessages(cursor: Cursor, answer: seq<Msg>) returns (messages: seq<Msg>)
    ensures messages == Kept(answer, cursor.lastUid)
  {
    messages := [];
    assert answer[..0] == [];
    for i := 0 to |answer|
      invariant messages == Kept(answer[..i], cursor.lastUid)
    {
      var raw := answer[i];
      assert answer[..i + 1][..i] == answer[..i];
      if cursor.lastUid > 0 && raw.uid <= cursor.lastUid {
        continue;
      }
      if !raw.parses {
        continue;
      }
      messages := messages + [raw];
    }
    assert answer[..|answer|] == answer;
  }

  /** IMAPProvider.Fetch after the folder is open; `answer` is what the server sends back. */
  method Fetch(mb: seq<Msg>, uidValidity: nat, stored: Cursor, requested: int, answer: seq<Msg>)
    returns (messages: seq<Msg>, cursor: Cursor)
    requires IsMailbox(mb) && ValidAnswer(mb, Checked(stored, uidValidity), Limit(requested), answer)
    ensures messages == Kept(answer, Checked(stored, uidValidity).lastUid)
    ensures cursor == Cursor(uidValidity, Highest(messages, Checked(stored, uidValidity).lastUid))
    ensures var renumbered := stored.uidValidity != 0 && stored.uidValidity != uidValidity;
            var last := if renumbered then 0 else stored.lastUid;
            && cursor.uidValidity == uidValidity
            && (forall m :: m in messages <==> m in answer && m.parses && (last == 0 || last < m.uid))
            && last <= cursor.lastUid && (forall m :: m in messages ==> m.uid <= cursor.lastUid)
            && (cursor.lastUid == last || exists m :: m in messages && m.uid == cursor.lastUid)
  {
    cursor := stored;
    if cursor.uidValidity != 0 && cursor.uidValidity != uidValidity {
      cursor := Cursor(0, 0);
    }
    cursor := cursor.(uidValidity := uidValidity);
    if |mb| == 0 {
      return [], cursor;
    }
    messages := FetchMessages(cursor, answer);
    ghost var last := cursor.lastUid;
    assert messages[..0] == [];
    for i := 0 to |messages|
      invariant cursor == Cursor(uidValidity, Highest(messages[..i], last))
    {
      KeptMember(answer, last, messages[i]);
      AnswerBounded(mb, Checked(stored, uidValidity).lastUid, Limit(requested), answer, messages[i]);
      UidRoundTrip(messages[i].uid);
      assert messages[..i + 1][..i] == messages[..i];
      var uid := ParseUid(Sprint(messages[i].uid));
      if uid > cursor.lastUid {
        cursor := cursor.(lastUid := uid);
      }
    }
    assert messages[..|messages|] == messages;
    HighestBounds(messages, last);
    forall m ensures m in messages <==> m in answer && Keeps(m, last) { KeptMember(answer, last, m); }
  }

  // -------------------------------------------------------- facts about one poll

  lemma {:induction false} KeptMember(answer: seq<Msg>, last: nat, m: Msg)
    ensures m in Kept(answer, last) <==> m in answer && Keeps(m, last)
    decreases |answer|
  {
    if answer != [] {
      var n := |answer| - 1;
      KeptMember(answer[..n], last, m);
      assert m in answer <==> m in answer[..n] || m == answer[n];
    }
  }

  lemma {:induction false} KeptDistinct(answer: seq<Msg>, last: nat)
    requires forall i, j :: 0 <= i < j < |answer| ==> answer[i].uid != answer[j].uid
    ensures forall i, j :: 0 <= i < j < |Kept(answer, last)| ==> Kept(answer, last)[i].uid != Kept(answer, last)[j].uid
    decreases |answer|
  {
    if answer != [] {
      var n := |answer| - 1;
      KeptDistinct(answer[..n], last);
      forall m | m in Kept(answer[..n], last) ensures m.uid != answer[n].uid {
        KeptMember(answer[..n], last, m);
      }
    }
  }

  lemma {:induction false} HighestBounds(messages: seq<Msg>, last: nat)
    ensures last <= Highest(messages, last)
    ensures forall m :: m in messages ==> m.uid <= Highest(messages, last)
    ensures Highest(messages, last) == last || exists m :: m in messages && m.uid == Highest(messages, last)
    decreases |messages|
  {
    if messages != [] {
      var n := |messages| - 1;
      HighestBounds(messages[..n], last);
      assert forall m :: m in messages <==> m in messages[..n] || m == messages[n];
    }
  }

  lemma RequestedMember(mb: seq<Msg>, last: nat, limit: nat, m: Msg)
    requires IsMailbox(mb) && mb != []
    ensures m in Requested(mb, last, limit) ==> m in mb
    ensures 0 < last && m in mb && last < m.uid ==> m in Requested(mb, last, limit)
  {
    if last != 0 {
      var start := (last + 1) % UID_LIMIT;
      var top := mb[|mb| - 1].uid;
      var from := if start == 0 then top else start;
      BetweenMembers(mb, Min(from, top), Max(from, top), m);
      if m in mb {
        var i :| 0 <= i < |mb| && mb[i] == m;
        assert m.uid <= top;
      }
    }
  }

  lemma AnswerBounded(mb: seq<Msg>, last: nat, limit: nat, answer: seq<Msg>, m: Msg)
    requires IsMailbox(mb) && mb != [] && IsAnswer(answer, Requested(mb, last, limit)) && m in answer
    ensures m in mb && 0 < m.uid < UID_LIMIT
  {
    RequestedMember(mb, last, limit, m);
  }

  ghost predicate Complete(mb: seq<Msg>, last: nat, kept: seq<Msg>) {
    forall m :: m in mb && Keeps(m, last) ==> m in kept
  }

  /** A poll delivers every readable message past its cursor exactly when the cursor has started, or the
      mailbox fits the first-run limit, or nothing readable was left out by it. */
  lemma PollCompleteIff(mb: seq<Msg>, last: nat, limit: nat, answer: seq<Msg>)
    requires IsMailbox(mb) && mb != [] && IsAnswer(answer, Requested(mb, last, limit))
    ensures Complete(mb, last, Kept(answer, last)) <==>
              0 < last || forall i :: 0 <= i < |mb| - limit ==> !mb[i].parses
  {
    var kept := Kept(answer, last);
    if last == 0 && exists i :: 0 <= i < |mb| - limit && mb[i].parses {
      var i :| 0 <= i < |mb| - limit && mb[i].parses;
      KeptMember(answer, last, mb[i]);
      assert mb[i] !in mb[|mb| - limit..];
      assert !(mb[i] in kept) && mb[i] in mb;
    } else {
      forall m | m in mb && Keeps(m, last) ensures m in kept {
        KeptMember(answer, last, m);
        RequestedMember(mb, last, limit, m);
        if last == 0 && |mb| > limit {
          var i :| 0 <= i < |mb| && mb[i] == m;
          assert mb[|mb| - limit..][i - (|mb| - limit)] == m;
        }
      }
    }
  }

  /** What a first run reads: of a mailbox within the limit everything readable, of a larger one exactly what
      is readable among its newest `limit` messages; 200 unless the caller asks for 1 to 500. */
  lemma FirstRunReads(mb: seq<Msg>, requested: int, answer: seq<Msg>, i: nat)
    requires IsMailbox(mb) && i < |mb| && IsAnswer(answer, Requested(mb, 0, Limit(requested)))
    ensures mb[i] in Kept(answer, 0) <==>
              mb[i].parses && |mb| - (if 1 <= requested <= 500 then requested else 200) <= i
  {
    var limit := Limit(requested);
    KeptMember(answer, 0, mb[i]);
    if |mb| > limit {
      var newest := mb[|mb| - limit..];
      if |mb| - limit <= i {
        assert newest[i - (|mb| - limit)] == mb[i];
      } else {
        forall j | 0 <= j < |newest| ensures newest[j] != mb[i] { assert newest[j] == mb[j + (|mb| - limit)]; }
      }
    }
  }

  /** Keeping does not reorder: kept messages come in the order of the answer. */
  lemma {:induction false} KeptInOrder(answer: seq<Msg>, last: nat) returns (at: seq<nat>)
    ensures |at| == |Kept(answer, last)|
    ensures forall i :: 0 <= i < |at| ==> at[i] < |answer| && answer[at[i]] == Kept(answer, last)[i]
    ensures forall i, j :: 0 <= i < j < |at| ==> at[i] < at[j]
    decreases |answer|
  {
    if answer == [] {
      at := [];
    } else {
      var n := |answer| - 1;
      at := KeptInOrder(answer[..n], last);
      if Keeps(answer[n], last) {
        at := at + [n];
      }
    }
  }

  // ------------------------------------------------ polling one mailbox for ever

  /** A UID means a message only together with the UIDVALIDITY it was read under. */
  datatype Handed = Handed(validity: nat, uid: nat)

  /** The server's mailbox, the highest UID it ever assigned under this UIDVALIDITY, the stored cursor, and
      everything handed to the pipeline so far. */
  datatype State = State(mb: seq<Msg>, uidMax: nat, validity: nat, cursor: Cursor, delivered: seq<Handed>)

  datatype Label =
    | Append(uid: nat, parses: bool)
    | Expunge(index: nat)
    | Renumber(validity: nat, mb: seq<Msg>, uidMax: nat)
    | Poll(requested: int, answer: seq<Msg>)

  function HandedOut(messages: seq<Msg>, validity: nat): (out: seq<Handed>)
    ensures |out| == |messages|
    ensures forall i :: 0 <= i < |out| ==> out[i] == Handed(validity, messages[i].uid)
  {
    seq(|messages|, i requires 0 <= i < |messages| => Handed(validity, messages[i].uid))
  }

  function Polled(s: State, answer: seq<Msg>): seq<Msg> {
    Kept(answer, Checked(s.cursor, s.validity).lastUid)
  }

  predicate Numbered(mb: seq<Msg>, uidMax: nat) {
    IsMailbox(mb) && (forall m :: m in mb ==> m.uid <= uidMax) && uidMax < UID_LIMIT
  }

  /** A server that renumbers uses a greater UIDVALIDITY than before. */
  predicate Enabled(s: State, l: Label) {
    match l
    case Append(uid, _) => s.uidMax < uid < UID_LIMIT
    case Expunge(index) => index < |s.mb|
    case Renumber(validity, mb, uidMax) => s.validity < validity && Numbered(mb, uidMax)
    case Poll(requested, answer) => ValidAnswer(s.mb, Checked(s.cursor, s.validity), Limit(requested), answer)
  }

  function Apply(s: State, l: Label): State
    requires Enabled(s, l)
  {
    match l
    case Append(uid, parses) => s.(mb := s.mb + [Msg(uid, parses)], uidMax := uid)
    case Expunge(index) => s.(mb := s.mb[..index] + s.mb[index + 1..])
    case Renumber(validity, mb, uidMax) => s.(validity := validity, mb := mb, uidMax := uidMax)
    case Poll(_, answer) =>
      var kept := Polled(s, answer);
      s.(cursor := Cursor(s.validity, Highest(kept, Checked(s.cursor, s.validity).lastUid)),
         delivered := s.delivered + HandedOut(kept, s.validity))
  }

  predicate Legal(s: State, tr: seq<Label>)
    decreases |tr|
  {
    tr == [] || (Enabled(s, tr[0]) && Legal(Apply(s, tr[0]), tr[1..]))
  }

  function Exec(s: State, tr: seq<Label>): State
    requires Legal(s, tr)
    decreases |tr|
  {
    if tr == [] then s else Exec(Apply(s, tr[0]), tr[1..])
  }

  /** A mailbox as it is found when the account is connected, with no cursor stored yet. */
  predicate IsStart(s: State) {
    Numbered(s.mb, s.uidMax) && 0 < s.validity && s.cursor == Cursor(0, 0) && s.delivered == []
  }

  predicate Distinct(out: seq<Handed>) {
    forall i, j :: 0 <= i < j < |out| ==> out[i] != out[j]
  }

  /** Nothing beyond the cursor has been handed out, and nothing at all under a UIDVALIDITY it has not seen. */
  predicate Past(h: Handed, cursor: Cursor) {
    0 < h.uid && (h.validity < cursor.uidValidity || (h.validity == cursor.uidValidity && h.uid <= cursor.lastUid))
  }

  predicate Inv(s: State) {
    && Numbered(s.mb, s.uidMax) && 0 < s.validity && s.cursor.uidValidity <= s.validity
    && (s.cursor.uidValidity == 0 ==> s.cursor.lastUid == 0)
    && (s.cursor.uidValidity == s.validity ==> s.cursor.lastUid <= s.uidMax)
    && Distinct(s.delivered)
    && (forall h :: h in s.delivered ==> Past(h, s.cursor))
  }

  /** The cursor moves forward: to a greater UIDVALIDITY, or to a UID no smaller under the same one. */
  predicate Forward(a: Cursor, b: Cursor) {
    a.uidValidity < b.uidValidity || (a.uidValidity == b.uidValidity && a.lastUid <= b.lastUid)
  }

  lemma PollStep(s: State, l: Label)
    requires Inv(s) && l.Poll? && Enabled(s, l)
    ensures Inv(Apply(s, l)) && Forward(s.cursor, Apply(s, l).cursor)
  {
    var last := Checked(s.cursor, s.validity).lastUid;
    var kept := Polled(s, l.answer);
    var t := Apply(s, l);
    HighestBounds(kept, last);
    if s.mb != [] {
      KeptDistinct(l.answer, last);
    }
    forall m | m in kept ensures m in s.mb && last < m.uid && 0 < m.uid <= s.uidMax {
      KeptMember(l.answer, last, m);
      AnswerBounded(s.mb, last, Limit(l.requested), l.answer, m);
    }
    var out := HandedOut(kept, s.validity);
    forall h | h in out ensures h.validity == s.validity && last < h.uid && Past(h, t.cursor) {
      var i :| 0 <= i < |kept| && out[i] == h;
      assert kept[i] in kept;
    }
    forall i, j | 0 <= i < j < |t.delivered| ensures t.delivered[i] != t.delivered[j] {
      var d := |s.delivered|;
      if i < d <= j {
        assert s.delivered[i] in s.delivered && out[j - d] in out;
      }
    }
    forall h | h in t.delivered ensures Past(h, t.cursor) {
      assert h in s.delivered || h in out;
    }
  }

  lemma InvStep(s: State, l: Label)
    requires Inv(s) && Enabled(s, l)
    ensures Inv(Apply(s, l)) && Forward(s.cursor, Apply(s, l).cursor)
    ensures |s.delivered| <= |Apply(s, l).delivered| && Apply(s, l).delivered[..|s.delivered|] == s.delivered
  {
    if l.Poll? {
      PollStep(s, l);
    } else {
      MailboxStep(s, l);
    }
  }

  lemma MailboxStep(s: State, l: Label)
    requires Inv(s) && !l.Poll? && Enabled(s, l)
    ensures Inv(Apply(s, l))
  {
    var mb := Apply(s, l).mb;
    match l
    case Append(uid, parses) =>
      forall m | m in mb ensures m in s.mb || m == Msg(uid, parses) {}
    case Expunge(index) =>
      forall i | 0 <= i < |mb| ensures mb[i] == s.mb[if i < index then i else i + 1] {}
      forall m | m in mb ensures m in s.mb {}
    case Renumber(_, _, _) =>
  }

  lemma {:induction false} InvRun(s: State, tr: seq<Label>)
    requires Inv(s) && Legal(s, tr)
    ensures Inv(Exec(s, tr)) && Forward(s.cursor, Exec(s, tr).cursor)
    ensures |s.delivered| <= |Exec(s, tr).delivered| && Exec(s, tr).delivered[..|s.delivered|] == s.delivered
    decreases |tr|
  {
    if tr != [] {
      InvStep(s, tr[0]);
      InvRun(Apply(s, tr[0]), tr[1..]);
    }
  }

  /** From any start, through any appends, expunges, renumberings and polls: the cursor never goes back, and no
      UID is handed out twice under one UIDVALIDITY, although "n:*" keeps returning the last message. */
  lemma NeverTwice(s: State, tr: seq<Label>, more: seq<Label>)
    requires IsStart(s) && Legal(s, tr) && Legal(Exec(s, tr), more)
    ensures Forward(Exec(s, tr).cursor, Exec(Exec(s, tr), more).cursor)
    ensures Distinct(Exec(Exec(s, tr), more).delivered)
  {
    InvRun(s, tr);
    InvRun(Exec(s, tr), more);
  }

  lemma HandedIff(mb: seq<Msg>, kept: seq<Msg>, validity: nat, m: Msg)
    requires IsMailbox(mb) && m in mb && forall k :: k in kept ==> k in mb
    ensures Handed(validity, m.uid) in HandedOut(kept, validity) <==> m in kept
  {
    var out := HandedOut(kept, validity);
    if m in kept {
      var j :| 0 <= j < |kept| && kept[j] == m;
      assert out[j] == Handed(validity, m.uid);
    }
    if Handed(validity, m.uid) in out {
      var j :| 0 <= j < |out| && out[j] == Handed(validity, m.uid);
      SameUid(mb, kept[j], m);
    }
  }

  /** A poll under a UIDVALIDITY the cursor has not seen is a first run. */
  lemma UnseenStartsOver(s: State, requested: int, answer: seq<Msg>, i: nat)
    requires Inv(s) && Enabled(s, Poll(requested, answer)) && i < |s.mb|
    requires s.cursor.uidValidity < s.validity
    ensures var t := Apply(s, Poll(requested, answer));
            var m := s.mb[i];
            var first := |s.mb| - (if 1 <= requested <= 500 then requested else 200);
            && (Handed(s.validity, m.uid) in t.delivered <==> m.parses && first <= i)
            && t.cursor.uidValidity == s.validity
            && (m.parses && first <= i ==> m.uid <= t.cursor.lastUid)
  {
    var kept := Polled(s, answer);
    assert Checked(s.cursor, s.validity).lastUid == 0;
    forall k | k in kept ensures k in s.mb {
      KeptMember(answer, 0, k);
      RequestedMember(s.mb, 0, Limit(requested), k);
    }
    FirstRunReads(s.mb, requested, answer, i);
    HandedIff(s.mb, kept, s.validity, s.mb[i]);
    HighestBounds(kept, 0);
    assert Handed(s.validity, s.mb[i].uid) !in s.delivered;
  }

  /** The first poll after the server renumbered is a first run: it delivers exactly what is readable among
      the newest messages up to the limit, whatever the cursor was before, and leaves the cursor at the
      highest UID of those. */
  lemma RenumberingStartsOver(s: State, before: seq<Label>, renumber: Label, requested: int, answer: seq<Msg>, i: nat)
    requires IsStart(s) && Legal(s, before) && renumber.Renumber? && Enabled(Exec(s, before), renumber)
    requires Enabled(Apply(Exec(s, before), renumber), Poll(requested, answer)) && i < |renumber.mb|
    ensures var t := Apply(Apply(Exec(s, before), renumber), Poll(requested, answer));
            var m := renumber.mb[i];
            var first := |renumber.mb| - (if 1 <= requested <= 500 then requested else 200);
            && (Handed(renumber.validity, m.uid) in t.delivered <==> m.parses && first <= i)
            && t.cursor.uidValidity == renumber.validity
            && (m.parses && first <= i ==> m.uid <= t.cursor.lastUid)
  {
    InvRun(s, before);
    InvStep(Exec(s, before), renumber);
    UnseenStartsOver(Apply(Exec(s, before), renumber), requested, answer, i);
  }

  lemma SameUid(mb: seq<Msg>, a: Msg, b: Msg)
    requires IsMailbox(mb) && a in mb && b in mb && a.uid == b.uid
    ensures a == b
  {
    var i :| 0 <= i < |mb| && mb[i] == a;
    var j :| 0 <= j < |mb| && mb[j] == b;
  }

  lemma {:induction false} LowUntilPolled(s: State, tr: seq<Label>)
    requires Legal(s, tr) && forall i :: 0 <= i < |tr| ==> !tr[i].Poll? && !tr[i].Renumber?
    ensures Exec(s, tr).cursor == s.cursor && Exec(s, tr).delivered == s.delivered && Exec(s, tr).validity == s.validity
    decreases |tr|
  {
    if tr != [] {
      LowUntilPolled(Apply(s, tr[0]), tr[1..]);
    }
  }

  ghost function Times(out: seq<Handed>, h: Handed): nat {
    if out == [] then 0 else (if out[0] == h then 1 else 0) + Times(out[1..], h)
  }

  lemma {:induction false} TimesDistinct(out: seq<Handed>, h: Handed)
    requires Distinct(out)
    ensures Times(out, h) == if h in out then 1 else 0
  {
    if out != [] {
      TimesDistinct(out[1..], h);
      assert h in out <==> h == out[0] || h in out[1..];
      assert forall i :: 0 <= i < |out[1..]| ==> out[1..][i] != out[0];
    }
  }

  /** The poll of a state that holds a readable message past the cursor hands it out, and from then on it is
      in the list once. */
  lemma PolledForGood(s: State, poll: Label, after: seq<Label>, m: Msg)
    requires Inv(s) && poll.Poll? && Enabled(s, poll) && Legal(Apply(s, poll), after)
    requires m in s.mb && m.parses && 0 < Checked(s.cursor, s.validity).lastUid < m.uid
    ensures m in Polled(s, poll.answer)
    ensures Times(Exec(Apply(s, poll), after).delivered, Handed(s.validity, m.uid)) == 1
  {
    var last := Checked(s.cursor, s.validity).lastUid;
    var kept := Polled(s, poll.answer);
    RequestedMember(s.mb, last, Limit(poll.requested), m);
    KeptMember(poll.answer, last, m);
    var i :| 0 <= i < |kept| && kept[i] == m;
    var t := Apply(s, poll);
    assert t.delivered[|s.delivered| + i] == Handed(s.validity, m.uid);
    InvStep(s, poll);
    InvRun(t, after);
    assert Exec(t, after).delivered[..|t.delivered|][|s.delivered| + i] == Handed(s.validity, m.uid);
    TimesDistinct(Exec(t, after).delivered, Handed(s.validity, m.uid));
  }

  /** Once LastUID has started under the current UIDVALIDITY, a readable message that arrives and is still
      there at the next poll is delivered by that poll, and never again: exactly once over any continuation,
      renumbered or not. */
  lemma ExactlyOnce(start: State, before: seq<Label>, uid: nat, waiting: seq<Label>, poll: Label, after: seq<Label>)
    requires IsStart(start) && Legal(start, before)
    requires var s := Exec(start, before);
             && s.cursor.uidValidity == s.validity && 0 < s.cursor.lastUid && Enabled(s, Append(uid, true))
             && Legal(Apply(s, Append(uid, true)), waiting)
    requires forall i :: 0 <= i < |waiting| ==> !waiting[i].Poll? && !waiting[i].Renumber?
    requires var s := Exec(Apply(Exec(start, before), Append(uid, true)), waiting);
             && Msg(uid, true) in s.mb && poll.Poll? && Enabled(s, poll)
             && Legal(Apply(s, poll), after)
    ensures var s := Exec(Apply(Exec(start, before), Append(uid, true)), waiting);
            && Msg(uid, true) in Polled(s, poll.answer)
            && Times(Exec(Apply(s, poll), after).delivered, Handed(s.validity, uid)) == 1
  {
    InvRun(start, before);
    var s0 := Exec(start, before);
    var s1 := Apply(s0, Append(uid, true));
    InvStep(s0, Append(uid, true));
    InvRun(s1, waiting);
    LowUntilPolled(s1, waiting);
    PolledForGood(Exec(s1, waiting), poll, after, Msg(uid, true));
  }
}
