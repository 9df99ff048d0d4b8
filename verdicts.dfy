/** The closed table of review statuses (HOMEWORK_VERDICTS) and the notification text
    built from a homework name and a verdict, with its decoder. */
module Verdicts {
  import opened Wrappers

  /** The three status codes the review API may report. */
  datatype Status = Approved | Reviewing | Rejected

  function Code(s: Status): string {
    match s
    case Approved => "approved"
    case Reviewing => "reviewing"
    case Rejected => "rejected"
  }

  function Verdict(s: Status): string {
    match s
    case Approved => "Работа проверена: ревьюеру всё понравилось. Ура!"
    case Reviewing => "Работа взята на проверку ревьюером."
    case Rejected => "Работа проверена: у ревьюера есть замечания."
  }

  /** HOMEWORK_VERDICTS: status code to verdict text. */
  const HomeworkVerdicts: map<string, string> :=
    map[Code(Approved) := Verdict(Approved),
        Code(Reviewing) := Verdict(Reviewing),
        Code(Rejected) := Verdict(Rejected)]

  /** The status a code names, if the table knows it. */
  function FromCode(code: string): (r: Option<Status>)
    ensures r.Some? <==> code in HomeworkVerdicts
    ensures r.Some? ==> Code(r.value) == code && HomeworkVerdicts[code] == Verdict(r.value)
  {
    if code == Code(Approved) then Some(Approved)
    else if code == Code(Reviewing) then Some(Reviewing)
    else if code == Code(Rejected) then Some(Rejected)
    else None
  }

  /** The table is closed: its keys are exactly the three codes, and the empty string is not one. */
  lemma VerdictTableClosed(code: string)
    ensures code in HomeworkVerdicts <==> exists s: Status :: Code(s) == code
    ensures "" !in HomeworkVerdicts
  {
    if code in HomeworkVerdicts {
      assert Code(FromCode(code).value) == code;
    }
  }

  /** Last two characters of a string of length at least two. */
  function LastTwo(s: string): string
    requires |s| >= 2
  {
    s[|s| - 2..]
  }

  /** The three verdict texts are pairwise distinct; they even differ in their last two characters. */
  lemma VerdictsDistinct(s: Status, t: Status)
    ensures |Verdict(s)| >= 2 && |Verdict(t)| >= 2
    ensures s != t ==> LastTwo(Verdict(s)) != LastTwo(Verdict(t)) && Verdict(s) != Verdict(t)
  {
    assert LastTwo(Verdict(Approved)) == "а!";
    assert LastTwo(Verdict(Reviewing)) == "м.";
    assert LastTwo(Verdict(Rejected)) == "я.";
  }

  const MessagePrefix: string := "Изменился статус проверки работы \""
  const NameTerminator: string := "\". "

  /** The notification sent for a homework name and a verdict text. */
  function StatusMessage(name: string, verdict: string): (m: string)
    ensures MessagePrefix <= m && EndsWith(m, NameTerminator + verdict)
  {
    Framed(MessagePrefix, name, NameTerminator, verdict);
    MessagePrefix + name + NameTerminator + verdict
  }

  lemma Framed(prefix: string, name: string, terminator: string, verdict: string)
    ensures prefix <= prefix + name + terminator + verdict
    ensures EndsWith(prefix + name + terminator + verdict, terminator + verdict)
  {
    Regroup(prefix, name, terminator, verdict);
    ConcatStartsWith(prefix, name + (terminator + verdict));
    ConcatEndsWith(prefix + name, terminator + verdict);
    assert prefix + name + (terminator + verdict) == prefix + name + terminator + verdict;
  }

  predicate EndsWith(s: string, suffix: string) {
    |suffix| <= |s| && s[|s| - |suffix|..] == suffix
  }

  /** What follows the homework name in the message for status `s`. */
  function Tail(s: Status): string {
    NameTerminator + Verdict(s)
  }

  function DropSuffix(s: string, suffix: string): (r: string)
    requires EndsWith(s, suffix)
    ensures r + suffix == s
  {
    var k := |s| - |suffix|;
    assert s == s[..k] + s[k..];
    s[..k]
  }

  /** Recovers the homework name and status from a notification message. */
  function DecodeMessage(m: string): Option<(string, Status)> {
    if MessagePrefix <= m then DecodeTail(m[|MessagePrefix|..]) else None
  }

  /** Splits what follows the prefix into the name and the status whose tail ends it. */
  function DecodeTail(rest: string): Option<(string, Status)> {
    if EndsWith(rest, Tail(Approved)) then Some((DropSuffix(rest, Tail(Approved)), Approved))
    else if EndsWith(rest, Tail(Reviewing)) then Some((DropSuffix(rest, Tail(Reviewing)), Reviewing))
    else if EndsWith(rest, Tail(Rejected)) then Some((DropSuffix(rest, Tail(Rejected)), Rejected))
    else None
  }

  lemma EndsWithLastTwo(x: string, a: string)
    requires EndsWith(x, a) && |a| >= 2
    ensures |x| >= 2 && LastTwo(x) == LastTwo(a)
  {
    assert x[|x| - 2..] == x[|x| - |a|..][|a| - 2..];
  }

  lemma LastTwoOfConcat(a: string, b: string)
    requires |b| >= 2
    ensures LastTwo(a + b) == LastTwo(b)
  {
    assert (a + b)[|a + b| - 2..] == b[|b| - 2..];
  }

  lemma ConcatEndsWith(a: string, b: string)
    ensures EndsWith(a + b, b) && DropSuffix(a + b, b) == a
  {
    assert (a + b)[|a|..] == b;
    assert (a + b)[..|a|] == a;
  }

  lemma ConcatStartsWith(a: string, b: string)
    ensures a <= a + b && (a + b)[|a|..] == b
  {
    assert (a + b)[..|a|] == a;
  }

  /** A string ends with the tail of at most one status. */
  lemma TailsExclusive(x: string, s: Status, t: Status)
    requires EndsWith(x, Tail(s)) && EndsWith(x, Tail(t))
    ensures s == t
  {
    VerdictsDistinct(s, t);
    LastTwoOfConcat(NameTerminator, Verdict(s));
    LastTwoOfConcat(NameTerminator, Verdict(t));
    EndsWithLastTwo(x, Tail(s));
    EndsWithLastTwo(x, Tail(t));
  }

  /** Decoding inverts the message format: name and status are recovered exactly,
      whatever characters the name contains. */
  lemma DecodeStatusMessage(name: string, s: Status)
    ensures DecodeMessage(StatusMessage(name, Verdict(s))) == Some((name, s))
  {
    var rest := name + Tail(s);
    Regroup(MessagePrefix, name, NameTerminator, Verdict(s));
    ConcatStartsWith(MessagePrefix, rest);
    ConcatEndsWith(name, Tail(s));
    forall t: Status | EndsWith(rest, Tail(t)) ensures t == s {
      TailsExclusive(rest, s, t);
    }
  }

  lemma DecodeTailSound(rest: string, name: string, s: Status)
    requires DecodeTail(rest) == Some((name, s))
    ensures name + Tail(s) == rest
  {
  }

  /** Every message the decoder accepts is the message for what it decodes to. */
  lemma DecodedMessageIsStatusMessage(m: string, name: string, s: Status)
    requires DecodeMessage(m) == Some((name, s))
    ensures m == StatusMessage(name, Verdict(s))
  {
    var rest := m[|MessagePrefix|..];
    DecodeTailSound(rest, name, s);
    PrefixThenRest(m, MessagePrefix, rest);
    Regroup(MessagePrefix, name, NameTerminator, Verdict(s));
  }

  lemma PrefixThenRest(m: string, prefix: string, rest: string)
    requires prefix <= m && m[|prefix|..] == rest
    ensures m == prefix + rest
  {
  }

  lemma Regroup(a: string, b: string, c: string, d: string)
    ensures a + b + c + d == a + (b + (c + d))
  {
  }

  /** Two messages are equal only when both the names and the statuses are. */
  lemma StatusMessageInjective(n1: string, s1: Status, n2: string, s2: Status)
    ensures StatusMessage(n1, Verdict(s1)) == StatusMessage(n2, Verdict(s2)) <==> n1 == n2 && s1 == s2
  {
    DecodeStatusMessage(n1, s1);
    DecodeStatusMessage(n2, s2);
  }
}
