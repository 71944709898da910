/** Client runs of both classes, stated for all inputs: what a caller can
    conclude from the contracts alone, for the cases of tests/clipify.test.ts
    and for runs through the source lines each scenario exercises. */
module Scenarios {
  import opened Base
  import opened History
  import opened Events
  import Source = ClipifySource
  import Dist = ClipifyDist

  /** Copying non-empty text with a working clipboard writes it, stores it and
      calls the "copy" listener with it. */
  method CopyNotifiesListener(text: string, callback: ListenerId, now: int)
    returns (status: Status, written: seq<string>, history: seq<Entry<Dist.ClipboardItem>>, calls: seq<Invocation>)
    requires text != ""
    ensures status == Resolved
    ensures written == [text]
    ensures history == [Entry(0, Dist.ClipboardItem(None, Some(text), None, now))]
    ensures calls == [Invocation(callback, text)]
  {
    var c := new Dist.Clipify();
    c.On("copy", callback);
    status := c.Copy(Dist.CopyOptions(Some(text), None, None), Present(true, None), now);
    written, history, calls := c.written, c.history, c.trace;
  }

  /** Missing or empty text is rejected with "Text is required to copy to
      clipboard." whatever the clipboard, before anything is written or stored. */
  method CopyWithoutTextRejects(text: Option<string>, clipboard: Clipboard, callback: ListenerId, now: int)
    returns (status: Status, written: seq<string>, history: seq<Entry<Dist.ClipboardItem>>, calls: seq<Invocation>)
    requires !Truthy(text)
    ensures status == Rejected(TextRequired)
    ensures Message(status.error) == "Text is required to copy to clipboard."
    ensures written == [] && history == [] && calls == []
  {
    var c := new Dist.Clipify();
    c.On("copy", callback);
    status := c.Copy(Dist.CopyOptions(text, None, None), clipboard, now);
    written, history, calls := c.written, c.history, c.trace;
  }

  /** A write that was attempted and rejected resolves the copy anyway, stores
      nothing and calls no listener. */
  method WriteFailureIsSwallowed(text: string, callback: ListenerId, now: int)
    returns (status: Status, written: seq<string>, history: seq<Entry<Dist.ClipboardItem>>, calls: seq<Invocation>)
    requires text != ""
    ensures status == Resolved
    ensures written == [text]
    ensures history == [] && calls == []
  {
    var c := new Dist.Clipify();
    c.On("copy", callback);
    status := c.Copy(Dist.CopyOptions(Some(text), None, None), Present(false, None), now);
    written, history, calls := c.written, c.history, c.trace;
  }

  /** Two "copy" listeners are each called once, in the order they were added. */
  method ListenersRunInRegistrationOrder(text: string, first: ListenerId, second: ListenerId, now: int)
    returns (calls: seq<Invocation>)
    requires text != ""
    ensures calls == [Invocation(first, text), Invocation(second, text)]
  {
    var c := new Dist.Clipify();
    c.On("copy", first);
    c.On("copy", second);
    var _ := c.Copy(Dist.CopyOptions(Some(text), None, None), Present(true, None), now);
    calls := c.trace;
  }

  /** Clearing the history does not disarm an expiry: when it fires later the
      history stays empty, yet the "expire" listener is still called with the
      text. */
  method ExpiryAfterClearStillNotifies(text: string, delay: int, callback: ListenerId, now: int)
    returns (history: seq<Entry<Dist.ClipboardItem>>, calls: seq<Invocation>)
    requires text != "" && delay != 0
    ensures history == []
    ensures calls == [Invocation(callback, text)]
  {
    var c := NewDistWithExpireListener(callback);
    assert Dispatch([callback], text) == [Invocation(callback, text)];
    var item := Entry(0, Dist.ClipboardItem(None, Some(text), None, now));
    var _ := c.Copy(Dist.CopyOptions(Some(text), Some(delay), None), Present(true, None), now);
    assert c.trace == [] && item in c.pendingExpiries;
    c.ClearHistory();
    c.FireExpiry(item);
    assert c.trace == [Invocation(callback, text)];
    history, calls := c.history, c.trace;
  }

  /** A stored file is found again by its key; storing it writes nothing to the
      clipboard and calls no listener. */
  method CopyFileThenLookup(file: Dist.Blob, key: string, callback: ListenerId, now: int)
    returns (found: Dist.View, written: seq<string>, calls: seq<Invocation>)
    requires key != ""
    ensures found == Dist.Item(Entry(0, Dist.ClipboardItem(Some(key), None, Some(file), now)))
    ensures written == [] && calls == []
  {
    var c := new Dist.Clipify();
    c.On("copy", callback);
    var _ := c.CopyFile(file, Some(key), now);
    found := c.GetHistory(Some(key));
    written, calls := c.written, c.trace;
  }

  /** The positional variant writes and stores the empty text like any other. */
  method SourceCopiesEmptyText(now: int)
    returns (status: Status, written: seq<string>, history: seq<Entry<Source.ClipboardItem>>)
    ensures status == Resolved
    ensures written == [""]
    ensures history == [Entry(0, Source.ClipboardItem("", now))]
  {
    var c := new Source.Clipify();
    status := c.Copy("", None, Present(true, None), now);
    written, history := c.written, c.history;
  }

  /** Without a clipboard, both copy and paste reject, nothing is written and
      nothing changes. */
  method SourceWithoutClipboard(text: string, callback: ListenerId, now: int)
    returns (copied: Status, pasted: Result<string>, written: seq<string>,
             history: seq<Entry<Source.ClipboardItem>>, calls: seq<Invocation>)
    ensures copied == Rejected(Unsupported) && pasted == Err(Unsupported)
    ensures written == [] && history == [] && calls == []
  {
    var c := new Source.Clipify();
    c.On("copy", callback);
    copied := c.Copy(text, None, Missing, now);
    pasted := c.Paste(Missing);
    written, history, calls := c.written, c.history, c.trace;
  }

  /** An item whose expiry fired is gone; removing it once more leaves the
      history as it is but calls the "expire" listener again. */
  method SourceExpireTwice(text: string, delay: int, callback: ListenerId, now: int)
    returns (history: seq<Entry<Source.ClipboardItem>>, calls: seq<Invocation>)
    requires delay != 0
    ensures history == []
    ensures calls == [Invocation(callback, text), Invocation(callback, text)]
  {
    var c := NewSourceWithExpireListener(callback);
    assert Dispatch([callback], text) == [Invocation(callback, text)];
    var item := Entry(0, Source.ClipboardItem(text, now));
    var _ := c.Copy(text, Some(delay), Present(true, None), now);
    assert c.history == [item] && c.trace == [];
    c.FireExpiry(item);
    assert c.history == [] && c.trace == [Invocation(callback, text)];
    c.RemoveExpiredItem(item);
    assert c.trace == [Invocation(callback, text), Invocation(callback, text)];
    history, calls := c.history, c.trace;
  }

  /** A new instance of the keyed variant whose only listener is `callback`, on
      "expire". */
  method NewDistWithExpireListener(callback: ListenerId) returns (c: Dist.Clipify)
    ensures fresh(c) && c.Valid()
    ensures c.history == [] && c.trace == [] && c.written == [] && c.nextId == 0 && c.pendingExpiries == {}
    ensures Listeners(c.listeners, "copy") == [] && Listeners(c.listeners, "expire") == [callback]
  {
    c := new Dist.Clipify();
    c.On("expire", callback);
    // The two event names differ (in their first letter), so the "copy" list
    // is not the "expire" one.
    assert "copy"[0] != "expire"[0];
  }

  /** A new instance of the positional variant whose only listener is
      `callback`, on "expire". */
  method NewSourceWithExpireListener(callback: ListenerId) returns (c: Source.Clipify)
    ensures fresh(c) && c.Valid()
    ensures c.history == [] && c.trace == [] && c.written == [] && c.nextId == 0 && c.pendingExpiries == {}
    ensures Listeners(c.listeners, "copy") == [] && Listeners(c.listeners, "expire") == [callback]
  {
    c := new Source.Clipify();
    c.On("expire", callback);
    // The two event names differ (in their first letter), so the "copy" list
    // is not the "expire" one.
    assert "copy"[0] != "expire"[0];
  }
}
