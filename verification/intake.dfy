/**
 * Event intake: the keepalived notify hook. A notification is one line of
 * whitespace-separated words (instance, quoted interface, state, priority);
 * only MASTER and BACKUP states are published and forwarded to the
 * orchestrator.
 */
module VrrpIntake {
  import opened FailoverTypes

  /** The characters Python's str.split() treats as separators (str.isspace). */
  predicate IsSpace(c: char) {
    var n := c as int;
    (9 <= n <= 13) || (28 <= n <= 32) || n == 0x85 || n == 0xA0 || n == 0x1680
    || (0x2000 <= n <= 0x200A) || n == 0x2028 || n == 0x2029 || n == 0x202F
    || n == 0x205F || n == 0x3000
  }

  predicate NoSpace(w: string) {
    forall i :: 0 <= i < |w| ==> !IsSpace(w[i])
  }

  /** A field as split() yields it: non-empty and free of separators. */
  predicate IsWord(w: string) {
    w != [] && NoSpace(w)
  }

  /** Length of the longest separator-free prefix of s. */
  function WordLen(s: string): (n: nat)
    ensures n <= |s|
    ensures forall i :: 0 <= i < n ==> !IsSpace(s[i])
    ensures n < |s| ==> IsSpace(s[n])
  {
    if s == [] || IsSpace(s[0]) then 0 else 1 + WordLen(s[1..])
  }

  /** str.split() with no argument: runs of separators delimit the fields. */
  function Split(s: string): seq<string>
    decreases |s|
  {
    if s == [] then []
    else if IsSpace(s[0]) then Split(s[1..])
    else
      var n := WordLen(s);
      [s[..n]] + Split(s[n..])
  }

  /** The fields joined by single blanks: the line keepalived writes. */
  function Join(ws: seq<string>): string {
    if |ws| == 0 then ""
    else if |ws| == 1 then ws[0]
    else ws[0] + " " + Join(ws[1..])
  }

  /** Every field that split() yields is a word. */
  lemma {:induction false} SplitYieldsWords(s: string)
    ensures forall k :: 0 <= k < |Split(s)| ==> IsWord(Split(s)[k])
    decreases |s|
  {
    if s == [] {
    } else if IsSpace(s[0]) {
      SplitYieldsWords(s[1..]);
    } else {
      var n := WordLen(s);
      SplitYieldsWords(s[n..]);
    }
  }

  lemma {:induction false} WordLenOfWord(w: string, rest: string)
    requires NoSpace(w)
    requires rest == [] || IsSpace(rest[0])
    ensures WordLen(w + rest) == |w|
    decreases |w|
  {
    if w == [] {
      assert w + rest == rest;
    } else {
      assert (w + rest)[1..] == w[1..] + rest;
      WordLenOfWord(w[1..], rest);
    }
  }

  lemma SplitWordThen(w: string, rest: string)
    requires IsWord(w)
    requires rest == [] || IsSpace(rest[0])
    ensures Split(w + rest) == [w] + Split(rest)
  {
    WordLenOfWord(w, rest);
    var s := w + rest;
    assert s[0] == w[0];
    assert s[..|w|] == w;
    assert s[|w|..] == rest;
  }

  /** Splitting a line joined from words gives the words back. */
  lemma {:induction false} SplitJoin(ws: seq<string>)
    requires forall k :: 0 <= k < |ws| ==> IsWord(ws[k])
    ensures Split(Join(ws)) == ws
  {
    if |ws| == 0 {
    } else if |ws| == 1 {
      SplitWordThen(ws[0], "");
      assert ws[0] + "" == ws[0];
    } else {
      var tail := " " + Join(ws[1..]);
      SplitWordThen(ws[0], tail);
      assert ws[0] + " " + Join(ws[1..]) == ws[0] + tail;
      assert Split(tail) == Split(Join(ws[1..]));
      SplitJoin(ws[1..]);
      assert ws == [ws[0]] + ws[1..];
    }
  }

  function StripLeading(s: string): (r: string)
    ensures |r| <= |s| && r == s[|s| - |r|..]
    ensures r == [] || r[0] != '"'
    ensures forall i :: 0 <= i < |s| - |r| ==> s[i] == '"'
  {
    if s != [] && s[0] == '"' then StripLeading(s[1..]) else s
  }

  function StripTrailing(s: string): (r: string)
    ensures |r| <= |s| && r == s[..|r|]
    ensures r == [] || r[|r| - 1] != '"'
    ensures forall i :: |r| <= i < |s| ==> s[i] == '"'
  {
    if s != [] && s[|s| - 1] == '"' then StripTrailing(s[..|s| - 1]) else s
  }

  /** str.strip('"'): removes every quote at either end of s. */
  function StripQuotes(s: string): (r: string)
    ensures |r| <= |s|
    ensures r == [] || (r[0] != '"' && r[|r| - 1] != '"')
  {
    StripTrailing(StripLeading(s))
  }

  predicate AllQuotes(q: string) {
    forall i :: 0 <= i < |q| ==> q[i] == '"'
  }

  /** Stripping undoes any quoting of a name that neither starts nor ends with a quote. */
  lemma StripQuotesUnquotes(a: string, w: string, b: string)
    requires AllQuotes(a) && AllQuotes(b)
    requires w == [] || (w[0] != '"' && w[|w| - 1] != '"')
    ensures StripQuotes(a + w + b) == w
  {
    assert a + w + b == a + (w + b);
    StripLeadingQuotes(a, w + b);
    if w == [] {
      assert w + b == b + [];
      StripLeadingQuotes(b, []);
    } else {
      assert (w + b)[0] == w[0];
      assert StripLeading(w + b) == w + b;
      StripTrailingQuotes(w, b);
    }
  }

  lemma {:induction false} StripLeadingQuotes(a: string, rest: string)
    requires AllQuotes(a)
    ensures StripLeading(a + rest) == StripLeading(rest)
    decreases |a|
  {
    if a != [] {
      assert (a + rest)[1..] == a[1..] + rest;
      StripLeadingQuotes(a[1..], rest);
    } else {
      assert a + rest == rest;
    }
  }

  lemma {:induction false} StripTrailingQuotes(w: string, b: string)
    requires AllQuotes(b)
    requires w == [] || w[|w| - 1] != '"'
    ensures StripTrailing(w + b) == w
    decreases |b|
  {
    if b == [] {
      assert w + b == w;
      if w != [] {
        assert StripTrailing(w) == w;
      }
    } else {
      var b' := b[..|b| - 1];
      assert (w + b)[..|w + b| - 1] == w + b';
      StripTrailingQuotes(w, b');
    }
  }

  /** What the hook does outward: publish failover.vrrp_event, then call failover.events.event. */
  datatype HookAction =
    | SendVrrpEvent(ifname: string, event: string)
    | CallEvent(ifname: string, event: string)

  /** Malformed: a line with fewer than three fields makes the hook raise IndexError. */
  datatype HookResult = Malformed | Handled(actions: seq<HookAction>)

  /** vrrp_fifo_hook: field 2 (unquoted) is the interface, field 3 the state. */
  function FifoHook(line: string): (r: HookResult)
    ensures r.Malformed? <==> |Split(line)| < 3
    ensures r.Handled? ==> (r.actions != [] <==> Split(line)[2] in {MASTER, BACKUP})
    ensures r.Handled? && r.actions != [] ==>
      && |r.actions| == 2
      && r.actions[0] == SendVrrpEvent(r.actions[1].ifname, r.actions[1].event)
      && r.actions[1].CallEvent?
      && r.actions[1].event in {MASTER, BACKUP}
    ensures r.Handled? && r.actions != [] ==>
      r.actions[1] == CallEvent(StripQuotes(Split(line)[1]), Split(line)[2])
  {
    var fields := Split(line);
    if |fields| < 3 then Malformed
    else
      var ifname := StripQuotes(fields[1]);
      var event := fields[2];
      if event != MASTER && event != BACKUP then Handled([])
      else Handled([SendVrrpEvent(ifname, event), CallEvent(ifname, event)])
  }

  /**
   * On a line as keepalived writes it (instance, "ifname", state, priority)
   * the hook forwards exactly the interface and the state, publishing first,
   * and drops every state other than MASTER and BACKUP.
   */
  lemma HookOnNotifyLine(instance: string, ifname: string, state: string, priority: string)
    requires IsWord(instance) && IsWord(state) && IsWord(priority)
    requires NoSpace(ifname)
    requires ifname == [] || (ifname[0] != '"' && ifname[|ifname| - 1] != '"')
    ensures FifoHook(Join([instance, "\"" + ifname + "\"", state, priority]))
            == if state in {MASTER, BACKUP}
               then Handled([SendVrrpEvent(ifname, state), CallEvent(ifname, state)])
               else Handled([])
  {
    var quoted := "\"" + ifname + "\"";
    assert IsWord(quoted) by {
      assert forall i :: 0 <= i < |quoted| ==> quoted[i] == '"' || quoted[i] == ifname[i - 1];
    }
    var ws := [instance, quoted, state, priority];
    SplitJoin(ws);
    StripQuotesUnquotes("\"", ifname, "\"");
  }
}
