/** The `Clipify` class of src/index.ts: copies text only, has no empty-text
    check, and looks history up by position. */
module ClipifySource {
  import opened Base
  import opened History
  import opened Events

  /** `ClipboardItem`: the copied text and the time it was added. */
  datatype ClipboardItem = ClipboardItem(text: string, timestamp: int)

  /** What `getHistory` returns: a copy of the whole list, one item, or null. */
  datatype View = Items(items: seq<Entry<ClipboardItem>>) | Item(item: Entry<ClipboardItem>) | Null

  class Clipify {
    /** `clipboardHistory` */
    var history: seq<Entry<ClipboardItem>>
    /** `eventListeners` */
    var listeners: Registry
    /** Every callback invocation so far, oldest first. */
    var trace: seq<Invocation>
    /** Every text handed to `navigator.clipboard.writeText`, oldest first,
        whether the write then resolved or rejected. */
    var written: seq<string>
    /** The allocation number the next history item gets. */
    var nextId: nat
    /** The items whose `setTimeout` is armed and has not fired yet. */
    ghost var pendingExpiries: set<Entry<ClipboardItem>>

    ghost predicate Valid()
      reads this
    {
      && Increasing(history)
      && IdsBelow(history, nextId)
      && forall p :: p in pendingExpiries ==> p.id < nextId
    }

    constructor()
      ensures Valid()
      ensures history == [] && listeners == map[] && trace == [] && nextId == 0
      ensures written == [] && pendingExpiries == {}
    {
      history := [];
      listeners := map[];
      trace := [];
      written := [];
      nextId := 0;
      pendingExpiries := {};
    }

    /** `copy(text, expiryTime)`. An absent clipboard rejects; otherwise the text
        is written, and a rejected write is swallowed and changes nothing more;
        a resolved write appends the text to the history, arms its expiry and
        notifies the "copy" listeners. Any text is copied, the empty one
        included. */
    method Copy(text: string, expiryTime: Option<int>, clipboard: Clipboard, now: int)
      returns (status: Status)
      requires Valid()
      modifies this
      ensures Valid()
      ensures listeners == old(listeners)
      ensures status == if clipboard.Missing? then Rejected(Unsupported) else Resolved
      ensures written == old(written) + if clipboard.Present? then [text] else []
      ensures !(clipboard.Present? && clipboard.writeResolves) ==>
        && history == old(history) && trace == old(trace) && nextId == old(nextId)
        && pendingExpiries == old(pendingExpiries)
      ensures clipboard.Present? && clipboard.writeResolves ==>
        var added := Entry(old(nextId), ClipboardItem(text, now));
        && history == old(history) + [added] && nextId == old(nextId) + 1
        && trace == old(trace) + Dispatch(Listeners(listeners, "copy"), text)
        && pendingExpiries == old(pendingExpiries) + (if Arms(expiryTime) then {added} else {})
    {
      if clipboard.Missing? {
        return Rejected(Unsupported);
      }
      written := written + [text];
      if clipboard.writeResolves {
        var _ := AddToHistory(text, expiryTime, now);
        NotifyListeners("copy", text);
      }
      status := Resolved;
    }

    /** `paste()`: the clipboard's text, or the error; the history is not used. */
    method Paste(clipboard: Clipboard) returns (r: Result<string>)
      ensures r == ReadClipboard(clipboard)
    {
      r := ReadClipboard(clipboard);
    }

    /** `addToHistory(text, expiryTime)`: push a new item stamped `now`, and arm
        its expiry only when `expiryTime` is truthy. */
    method AddToHistory(text: string, expiryTime: Option<int>, now: int)
      returns (added: Entry<ClipboardItem>)
      requires Valid()
      modifies this`history, this`nextId, this`pendingExpiries
      ensures Valid()
      ensures added == Entry(old(nextId), ClipboardItem(text, now))
      ensures history == old(history) + [added] && nextId == old(nextId) + 1
      ensures pendingExpiries == old(pendingExpiries) + (if Arms(expiryTime) then {added} else {})
    {
      added := Entry(nextId, ClipboardItem(text, now));
      history := history + [added];
      nextId := nextId + 1;
      if Arms(expiryTime) {
        pendingExpiries := pendingExpiries + {added};
      }
    }

    /** `removeExpiredItem(item)`: drop that object from the history, if it is
        still there, and notify the "expire" listeners with its text either way. */
    method RemoveExpiredItem(item: Entry<ClipboardItem>)
      requires Valid()
      modifies this`history, this`trace
      ensures Valid()
      ensures history == Without(old(history), item.id)
      ensures trace == old(trace) + Dispatch(Listeners(listeners, "expire"), item.item.text)
    {
      WithoutIncreasing(history, item.id);
      history := Without(history, item.id);
      NotifyListeners("expire", item.item.text);
    }

    /** The armed `setTimeout` of `item` fires: once, and then it is spent. */
    method FireExpiry(item: Entry<ClipboardItem>)
      requires Valid()
      requires item in pendingExpiries
      modifies this`history, this`trace, this`pendingExpiries
      ensures Valid()
      ensures pendingExpiries == old(pendingExpiries) - {item}
      ensures history == Without(old(history), item.id)
      ensures trace == old(trace) + Dispatch(Listeners(listeners, "expire"), item.item.text)
    {
      pendingExpiries := pendingExpiries - {item};
      RemoveExpiredItem(item);
    }

    /** `getHistory(index?)`: without an index a copy of the whole history; with
        one, the item there, or null when the index is out of range. */
    function GetHistory(index: Option<int>): (r: View)
      reads this
      ensures index.None? ==> r == Items(history)
      ensures index.Some? ==> (r.Item? <==> 0 <= index.value < |history|)
      ensures r.Item? ==> r.item == history[index.value]
      ensures r.Items? ==> index.None?
    {
      match index
      case None => Items(history)
      case Some(i) => if 0 <= i < |history| then Item(history[i]) else Null
    }

    /** `on(event, callback)` */
    method On(event: string, callback: ListenerId)
      requires Valid()
      modifies this`listeners
      ensures Valid()
      ensures listeners == Register(old(listeners), event, callback)
    {
      if event !in listeners {
        listeners := listeners[event := []];
      }
      listeners := listeners[event := listeners[event] + [callback]];
    }

    /** `notifyListeners(event, data)`: call each listener of `event` with `data`,
        in registration order. */
    method NotifyListeners(event: string, data: string)
      requires Valid()
      modifies this`trace
      ensures Valid()
      ensures trace == old(trace) + Dispatch(Listeners(listeners, event), data)
    {
      var registered := Listeners(listeners, event);
      var i := 0;
      while i < |registered|
        invariant 0 <= i <= |registered|
        invariant trace == old(trace) + Dispatch(registered[..i], data)
      {
        DispatchExtend(registered, i, data);
        trace := trace + [Invocation(registered[i], data)];
        i := i + 1;
      }
      assert registered[..i] == registered;
    }

    /** `clearHistory()`: empties the history; armed expiries stay armed. */
    method ClearHistory()
      requires Valid()
      modifies this`history
      ensures Valid()
      ensures history == []
    {
      history := [];
    }
  }
}
