/** What a view has to say of the history it stands for, in terms of the messages alone. */
module Accounting {
  import opened Messages
  import opened Layouts
  import opened TextCuts

  /** The leading system messages, and the message behind them if it is the user's. */
  ghost predicate IsHead(h: seq<Message>, e: nat) {
    exists n :: IsHeadAt(h, e, n)
  }

  ghost predicate IsHeadAt(h: seq<Message>, e: nat, n: nat) {
    && n <= e <= n + 1 && e <= |h|
    && (forall k :: 0 <= k < n ==> h[k].role == System)
    && (n < |h| ==> h[n].role != System)
    && (e == n + 1 <==> n < |h| && h[n].role == User)
  }

  /** A limit, if there is one, cuts the head's last user message, and nothing else. */
  ghost predicate IsCutHead(part: seq<Message>, limit: nat, head: seq<Message>) {
    if limit == 0 || part == [] || part[|part| - 1].role != User then head == part
    else
      var n := |part| - 1;
      && |head| == |part| && head[..n] == part[..n]
      && head[n] == part[n].(content := head[n].content) && IsCutTo(part[n].content, limit, head[n].content)
  }

  /**
    Every message is accounted for: the head is shown, what was folded is in the
    summary, what was left out behind it is counted, and the rest is shown with
    long texts cut at most.
   */
  ghost predicate AccountsFor(h: seq<Message>, upto: nat, text: string, droppedUpto: nat, headChars: nat,
                              tail: seq<Message>, view: seq<Message>) {
    exists e, head :: AccountsAt(h, upto, text, droppedUpto, headChars, tail, view, e, head)
  }

  ghost predicate AccountsAt(h: seq<Message>, upto: nat, text: string, droppedUpto: nat, headChars: nat,
                             tail: seq<Message>, view: seq<Message>, e: nat, head: seq<Message>) {
    && IsHead(h, e) && IsCutHead(h[..e], headChars, head)
    && var cutoff := if upto < e then e else upto;
       var start := if droppedUpto < cutoff then cutoff else droppedUpto;
       start <= |h| && SameShapes(h[start..], tail) && Says(head, text, start - cutoff, tail, view)
  }
}
