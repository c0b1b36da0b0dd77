/** Once-only logging: a message is printed the first time it is logged and
    remembered in a module-level set until the set is cleared. Printing
    appends to the list of printed messages. The logging utilities carry
    a copy of the same two functions over a set of their own. */
module Logger {

  datatype LogState = LogState(logged: set<string>, printed: seq<string>)

  /** `log_once`. */
  function LogOnce(s: LogState, message: string): (t: LogState)
    ensures message in t.logged
    ensures message !in s.logged ==> t == LogState(s.logged + {message}, s.printed + [message])
    ensures message in s.logged ==> t == s
  {
    if message !in s.logged then LogState(s.logged + {message}, s.printed + [message]) else s
  }

  /** `clear_log_cache`: the set empties, what was printed stays printed. */
  function ClearLogCache(s: LogState): (t: LogState)
    ensures t.logged == {} && t.printed == s.printed
  {
    s.(logged := {})
  }

  /** Logging each message of a sequence in turn. */
  function LogAll(s: LogState, messages: seq<string>): LogState
    decreases |messages|
  {
    if messages == [] then s else LogAll(LogOnce(s, messages[0]), messages[1..])
  }

  predicate NoDuplicates(xs: seq<string>) {
    forall i, j :: 0 <= i < j < |xs| ==> xs[i] != xs[j]
  }

  /** Logging a sequence adds its messages to the set and prints, after
      what was printed before, each message not yet in the set exactly
      once, and nothing else. */
  lemma {:induction false} LogAllFacts(s: LogState, messages: seq<string>)
    ensures LogAll(s, messages).logged == s.logged + (set m | m in messages)
    ensures |s.printed| <= |LogAll(s, messages).printed|
    ensures LogAll(s, messages).printed[..|s.printed|] == s.printed
    ensures var added := LogAll(s, messages).printed[|s.printed|..];
      && NoDuplicates(added)
      && (forall m :: m in added <==> m in messages && m !in s.logged)
    decreases |messages|
  {
    if messages != [] {
      var m := messages[0];
      var s1 := LogOnce(s, m);
      LogAllFacts(s1, messages[1..]);
      var r := LogAll(s1, messages[1..]);
      assert (set x | x in messages) == {m} + (set x | x in messages[1..]) by {
        assert forall x :: x in messages <==> x == m || x in messages[1..] by {
          assert messages == [m] + messages[1..];
        }
      }
      assert r.printed[..|s.printed|] == r.printed[..|s1.printed|][..|s.printed|];
      var added := r.printed[|s.printed|..];
      var added1 := r.printed[|s1.printed|..];
      if m !in s.logged {
        assert added == [m] + added1;
        assert m !in added1;
      } else {
        assert added == added1;
      }
      assert forall x :: x in messages <==> x == m || x in messages[1..] by {
        assert messages == [m] + messages[1..];
      }
    }
  }

  /** Logging the same message twice prints it at most once. */
  lemma LogTwice(s: LogState, message: string)
    ensures LogOnce(LogOnce(s, message), message) == LogOnce(s, message)
  {
  }

  /** After the cache is cleared the next `log_once` prints again. */
  lemma ClearThenLogPrints(s: LogState, message: string)
    ensures LogOnce(ClearLogCache(s), message).printed == s.printed + [message]
  {
  }

  /** The module-level set and what was printed. */
  class MessageLog {
    var loggedMessages: set<string>
    var printed: seq<string>

    constructor()
      ensures loggedMessages == {} && printed == []
    {
      loggedMessages := {};
      printed := [];
    }

    method LogOnceMessage(message: string)
      modifies this
      ensures LogState(loggedMessages, printed) == LogOnce(old(LogState(loggedMessages, printed)), message)
    {
      if message !in loggedMessages {
        loggedMessages := loggedMessages + {message};
        printed := printed + [message];
      }
    }

    method ClearLogCacheNow()
      modifies this
      ensures LogState(loggedMessages, printed) == ClearLogCache(old(LogState(loggedMessages, printed)))
    {
      loggedMessages := {};
    }
  }
}
