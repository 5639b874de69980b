/** What the list handling and the newline closing of the composer achieve:
    after a text flushes the queued list markers, the open lists are exactly
    the queued ones, with one item open in the innermost; a text ending in
    newlines closes that many list and item tags, innermost first. */
module StackFacts {
  import opened Rendering

  lemma ListTagsOfPush(s: seq<string>, x: string)
    ensures ListTagsOf(s + [x]) == ListTagsOf(s) + (if x in ListTags then [x] else [])
  {
    assert DropLast(s + [x]) == s;
  }

  /** Pushing list tags adds them to the stack's list tags. */
  lemma {:induction false} ListTagsOfAppend(s: seq<string>, tags: seq<string>)
    requires forall i :: 0 <= i < |tags| ==> tags[i] in ListTags
    ensures ListTagsOf(s + tags) == ListTagsOf(s) + tags
    decreases |tags|
  {
    if tags != [] {
      var init := DropLast(tags);
      var x := Last(tags);
      assert x == tags[|tags| - 1] && x in ListTags;
      ListTagsOfAppend(s, init);
      assert tags == init + [x];
      assert s + tags == (s + init) + [x];
      ListTagsOfPush(s + init, x);
      assert ListTagsOf(s + tags) == (ListTagsOf(s) + init) + [x];
    } else {
      assert s + tags == s;
    }
  }

  /** Closing the innermost open list closes it and nothing below it that is
      a list: the other open lists stay open. */
  lemma {:induction false} CloseInnermostList(st: State, t: string, lists: seq<string>)
    requires ListTagsOf(st.stack) == lists + [t]
    ensures ListTagsOf(CloseTo(st, t).stack) == lists
    decreases |st.stack|
  {
    var s := st.stack;
    assert s != [];
    var top := Last(s);
    var next := Write(st, "</" + top + ">").(stack := DropLast(s));
    assert s == DropLast(s) + [top];
    ListTagsOfPush(DropLast(s), top);
    assert t == Last(lists + [t]);
    assert t in ListTags;
    if top == t {
      assert CloseTo(st, t) == next;
      var l := ListTagsOf(DropLast(s));
      assert l + [t] == lists + [t];
      assert l == (l + [t])[..|l|] && lists == (lists + [t])[..|lists|];
    } else {
      assert top !in ListTags;
      assert CloseTo(st, t) == CloseTo(next, t);
      CloseInnermostList(next, t, lists);
    }
  }

  /** Closing the open lists from position `i` on, innermost first, leaves
      the first `i` open. */
  lemma {:induction false} CloseListsFrom(st: State, lists: seq<string>, i: nat)
    requires ListTagsOf(st.stack) == lists && i <= |lists|
    ensures ListTagsOf(CloseEach(st, Reverse(lists[i..])).stack) == lists[..i]
    decreases |lists| - i
  {
    if i == |lists| {
      assert Reverse(lists[i..]) == [];
    } else {
      var init := DropLast(lists);
      var t := Last(lists);
      assert lists == init + [t];
      assert Reverse(lists[i..]) == [t] + Reverse(init[i..]) by {
        assert lists[i..] != [];
        assert Last(lists[i..]) == t && DropLast(lists[i..]) == init[i..];
      }
      CloseInnermostList(st, t, init);
      CloseListsFrom(CloseTo(st, t), init, i);
      assert init[..i] == lists[..i];
    }
  }

  /** The flush at the start of `visit_Text`: once it has run, the open lists
      are the queued lists in order, the innermost open tag is the item of
      the last queued list, and nothing is queued any more. */
  lemma FlushOpensQueuedLists(st: State)
    requires st.pending != [] && Queued(st.pending)
    ensures ListTagsOf(Flush(st).stack) == ListTagsOfPending(st.pending)
    ensures Flush(st).stack != [] && Last(Flush(st).stack) == Last(st.pending).1
    ensures Flush(st).pending == []
  {
    var stackLists := ListTagsOf(st.stack);
    var pendingLists := ListTagsOfPending(st.pending);
    var i := CommonPrefix(stackLists, pendingLists);
    var closed := CloseEach(st, Reverse(stackLists[i..]));
    CloseListsFrom(st, stackLists, i);
    var withLists := OpenLists(closed, pendingLists[i..]);
    var item := Last(st.pending).1;
    assert item in {"li", "dt"};
    ReopenLists(closed.stack, pendingLists, i, item);
  }

  /** Pushing the queued lists not yet open, then an item tag, makes the open
      lists the queued ones. */
  lemma ReopenLists(stack: seq<string>, lists: seq<string>, i: nat, item: string)
    requires i <= |lists| && ListTagsOf(stack) == lists[..i]
    requires forall j :: 0 <= j < |lists| ==> lists[j] in ListTags
    requires item !in ListTags
    ensures ListTagsOf(stack + lists[i..] + [item]) == lists
  {
    ListTagsOfAppend(stack, lists[i..]);
    assert lists[..i] + lists[i..] == lists;
    ListTagsOfPush(stack + lists[i..], item);
  }

  /** A marker queues its pair, so the queue stays well formed. */
  lemma ListMarkerQueues(st: State, markup: string)
    requires ListPair(markup).Some? && Queued(st.pending)
    ensures Queued(ListMarker(st, markup, ListPair(markup).value).pending)
    ensures Last(ListMarker(st, markup, ListPair(markup).value).pending) == ListPair(markup).value
  {
  }

  /** The number of list and item tags on top of the stack. */
  function TopItems(stack: seq<string>): (k: nat)
    ensures k <= |stack|
  {
    if stack == [] || Last(stack) !in ClosedByNewline then 0
    else 1 + TopItems(DropLast(stack))
  }

  /** `TopItems` counts the longest run of list and item tags on top. */
  lemma {:induction false} TopItemsRun(stack: seq<string>)
    ensures var k := TopItems(stack);
            (forall i :: |stack| - k <= i < |stack| ==> stack[i] in ClosedByNewline)
            && (k < |stack| ==> stack[|stack| - 1 - k] !in ClosedByNewline)
    decreases |stack|
  {
    if stack != [] && Last(stack) in ClosedByNewline {
      TopItemsRun(DropLast(stack));
    }
  }

  /** The state after closing the `k` innermost open tags. */
  function CloseTop(st: State, k: nat): State
    requires k <= |st.stack|
  {
    st.(out := st.out + Closers(st.stack[|st.stack| - k..]), stack := st.stack[..|st.stack| - k])
  }

  function Min(a: nat, b: nat): nat {
    if a <= b then a else b
  }

  /** Closing `k` tags is closing the innermost and then `k - 1` more. */
  lemma CloseTopStep(st: State, k: nat)
    requires 1 <= k <= |st.stack|
    ensures CloseTop(Write(st, "</" + Last(st.stack) + ">").(stack := DropLast(st.stack)), k - 1) == CloseTop(st, k)
  {
    var s := st.stack;
    var rest := DropLast(s);
    ClosersSplit(s, |s| - k);
    assert rest[|rest| - (k - 1)..] == rest[|s| - k..];
    assert rest[..|rest| - (k - 1)] == s[..|s| - k];
  }

  /** One round of the newline loop when the innermost tag is a list or item
      tag: it is closed. */
  lemma CloseTrailingStep(st: State, count: nat)
    requires count > 0 && st.stack != [] && Last(st.stack) in ClosedByNewline
    ensures CloseTrailing(st, count)
            == CloseTrailing(Write(st, "</" + Last(st.stack) + ">").(stack := DropLast(st.stack)), count - 1)
    ensures TopItems(st.stack) == 1 + TopItems(DropLast(st.stack))
  {
    assert CloseTo(st, Last(st.stack)) == Write(st, "</" + Last(st.stack) + ">").(stack := DropLast(st.stack));
  }

  /** The newline loop of `visit_Text` closes one list or item tag per
      newline, innermost first, and stops for good at the first other tag. */
  lemma {:induction false} CloseTrailingSpec(st: State, count: nat)
    ensures CloseTrailing(st, count) == CloseTop(st, Min(count, TopItems(st.stack)))
    decreases count
  {
    var s := st.stack;
    var k := Min(count, TopItems(s));
    if count == 0 || s == [] {
      assert k == 0;
      assert s[|s| - k..] == [] && s[..|s| - k] == s;
      assert st.out + Closers([]) == st.out;
      assert CloseTop(st, k) == st;
    } else if Last(s) in ClosedByNewline {
      var next := Write(st, "</" + Last(s) + ">").(stack := DropLast(s));
      CloseTrailingStep(st, count);
      CloseTrailingSpec(next, count - 1);
      CloseTopStep(st, k);
    } else {
      assert TopItems(s) == 0 && k == 0;
      assert CloseTrailing(st, count) == CloseTrailing(st, count - 1);
      CloseTrailingSpec(st, count - 1);
    }
  }

  /** A trailing newline closes the innermost list item (and the list when
      the item tag was already closed), and a text without one closes
      nothing. */
  lemma NewlinesClose(st: State, value: string)
    requires st.pending == []
    ensures RenderText(st, value) == CloseTop(Write(st, value), Min(TrailingNewlines(value), TopItems(st.stack)))
    ensures value == [] || Last(value) != '\n' ==> RenderText(st, value).stack == st.stack
  {
    CloseTrailingSpec(Write(st, value), TrailingNewlines(value));
  }

  /** A text after list markers leaves the queued lists open, with their
      innermost item, unless it ends in a newline. */
  lemma TextOpensLists(st: State, value: string)
    requires st.pending != [] && Queued(st.pending)
    requires value == [] || Last(value) != '\n'
    ensures ListTagsOf(RenderText(st, value).stack) == ListTagsOfPending(st.pending)
    ensures Last(RenderText(st, value).stack) == Last(st.pending).1
  {
    FlushOpensQueuedLists(st);
    CloseTrailingSpec(Write(Flush(st), value), 0);
  }
}
