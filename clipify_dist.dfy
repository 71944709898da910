/** The `Clipify` class of dist/index.js: rejects missing or empty text, stores
    an optional key and optional file items, and looks history up by key. */
module ClipifyDist {
  import opened Base
  import opened History
  import opened Events

  /** A file payload (a `Blob`), kept as an opaque handle. */
  datatype Blob = Blob(handle: nat)

  /** `ClipboardItem`: every field but the timestamp may be undefined. */
  datatype ClipboardItem = ClipboardItem(key: Option<string>, text: Option<string>, file: Option<Blob>, timestamp: int)

  /** `ClipboardOptions`, the argument of `copy`. */
  datatype CopyOptions = CopyOptions(text: Option<string>, expiryTime: Option<int>, key: Option<string>)

  /** What `getHistory` returns: an array (the whole history, or empty when no
      item has the key asked for) or the one item found. */
  datatype View = Items(items: seq<Entry<ClipboardItem>>) | Item(item: Entry<ClipboardItem>)

  /** `item.text || ""`. */
  function TextOrEmpty(text: Option<string>): (s: string)
    ensures Truthy(text) ==> s == text.value
    ensures s == "" <==> !Truthy(text)
  {
    if Truthy(text) then text.value else ""
  }

  /** `history.find(item => item.key === key)` as a position: the position of
      the item `find` returns, the first whose key is `key`; None when it
      returns undefined. */
  function IndexOfKey(h: seq<Entry<ClipboardItem>>, key: string): (r: Option<nat>)
    ensures r.Some? ==> r.value < |h| && h[r.value].item.key == Some(key)
    ensures r.Some? ==> forall j :: 0 <= j < r.value ==> h[j].item.key != Some(key)
    ensures r.None? ==> forall j :: 0 <= j < |h| ==> h[j].item.key != Some(key)
  {
    if h == [] then None
    else if h[0].item.key == Some(key) then Some(0)
    else match IndexOfKey(h[1..], key)
      case None => None
      case Some(i) => Some(i + 1)
  }

  /** Appending an item with a key makes a lookup of that key find it, unless an
      earlier item already has the key: the oldest item with a key wins. */
  lemma {:induction false} IndexOfKeyAppend(h: seq<Entry<ClipboardItem>>, e: Entry<ClipboardItem>, key: string)
    requires e.item.key == Some(key)
    ensures IndexOfKey(h + [e], key) == if IndexOfKey(h, key).Some? then IndexOfKey(h, key) else Some(|h|)
  {
    if h != [] {
      assert (h + [e])[1..] == h[1..] + [e];
      IndexOfKeyAppend(h[1..], e, key);
    }
  }

  class Clipify {
    /** `clipboardHistory` */
    var history: seq<Entry<ClipboardItem>>
    /** `eventListeners` */
    var listeners: Registry
    /** Every callback invocation so far, oldest first. */
    var trace: seq<Invocation>
    /** Every text handed to `navigator.clipboard.writeText`, oldest first,
        whether the write then resolved or rejected. */
    var written: seq<string>
    /** The allocation number the next history item gets. */
    var nextId: nat
    /** The items whose `setTimeout` is armed and has not fired yet. */
    ghost var pendingExpiries: set<Entry<ClipboardItem>>

    ghost predicate Valid()
      reads this
    {
      && Increasing(history)
      && IdsBelow(history, nextId)
      && forall p :: p in pendingExpiries ==> p.id < nextId
    }

    constructor()
      ensures Valid()
      ensures history == [] && listeners == map[] && trace == [] && nextId == 0
      ensures written == [] && pendingExpiries == {}
    {
      history := [];
      listeners := map[];
      trace := [];
      written := [];
      nextId := 0;
      pendingExpiries := {};
    }

    /** `copy(options)`. Missing or empty text rejects first, then an absent
        clipboard; otherwise the text is written, and a rejected write is
        swallowed and changes nothing more; a resolved write appends
        `{text, key}` to the history, arms its expiry and notifies the "copy"
        listeners with the text. */
    method Copy(options: CopyOptions, clipboard: Clipboard, now: int) returns (status: Status)
      requires Valid()
      modifies this
      ensures Valid()
      ensures listeners == old(listeners)
      ensures status == if !Truthy(options.text) then Rejected(TextRequired)
                        else if clipboard.Missing? then Rejected(Unsupported)
                        else Resolved
      ensures written == old(written) +
        if Truthy(options.text) && clipboard.Present? then [options.text.value] else []
      ensures !(Truthy(options.text) && clipboard.Present? && clipboard.writeResolves) ==>
        && history == old(history) && trace == old(trace) && nextId == old(nextId)
        && pendingExpiries == old(pendingExpiries)
      ensures Truthy(options.text) && clipboard.Present? && clipboard.writeResolves ==>
        var added := Entry(old(nextId), ClipboardItem(options.key, options.text, None, now));
        && history == old(history) + [added] && nextId == old(nextId) + 1
        && trace == old(trace) + Dispatch(Listeners(listeners, "copy"), options.text.value)
        && pendingExpiries == old(pendingExpiries) + (if Arms(options.expiryTime) then {added} else {})
    {
      if !Truthy(options.text) {
        return Rejected(TextRequired);
      }
      if clipboard.Missing? {
        return Rejected(Unsupported);
      }
      written := written + [options.text.value];
      if clipboard.writeResolves {
        var _ := AddToHistory(options.key, options.text, None, options.expiryTime, now);
        NotifyListeners("copy", options.text.value);
      }
      status := Resolved;
    }

    /** `copyFile(file, key)`: store the file under the key without touching the
        clipboard; no expiry is armed and no listener is notified. */
    method CopyFile(file: Blob, key: Option<string>, now: int) returns (status: Status)
      requires Valid()
      modifies this`history, this`nextId, this`pendingExpiries
      ensures Valid()
      ensures status == Resolved
      ensures history == old(history) + [Entry(old(nextId), ClipboardItem(key, None, Some(file), now))]
      ensures nextId == old(nextId) + 1
      ensures pendingExpiries == old(pendingExpiries)
    {
      var _ := AddToHistory(key, None, Some(file), None, now);
      status := Resolved;
    }

    /** `paste()`: the clipboard's text, or the error; the history is not used. */
    method Paste(clipboard: Clipboard) returns (r: Result<string>)
      ensures r == ReadClipboard(clipboard)
    {
      r := ReadClipboard(clipboard);
    }

    /** `addToHistory(item, expiryTime)`: push `{key, text, file, timestamp}` and
        arm its expiry only when `expiryTime` is truthy. */
    method AddToHistory(key: Option<string>, text: Option<string>, file: Option<Blob>,
                        expiryTime: Option<int>, now: int)
      returns (added: Entry<ClipboardItem>)
      requires Valid()
      modifies this`history, this`nextId, this`pendingExpiries
      ensures Valid()
      ensures added == Entry(old(nextId), ClipboardItem(key, text, file, now))
      ensures history == old(history) + [added] && nextId == old(nextId) + 1
      ensures pendingExpiries == old(pendingExpiries) + (if Arms(expiryTime) then {added} else {})
    {
      added := Entry(nextId, ClipboardItem(key, text, file, now));
      history := history + [added];
      nextId := nextId + 1;
      if Arms(expiryTime) {
        pendingExpiries := pendingExpiries + {added};
      }
    }

    /** `removeExpiredItem(item)`: drop that object from the history, if it is
        still there, and notify the "expire" listeners with its text (or "")
        either way. */
    method RemoveExpiredItem(item: Entry<ClipboardItem>)
      requires Valid()
      modifies this`history, this`trace
      ensures Valid()
      ensures history == Without(old(history), item.id)
      ensures trace == old(trace) + Dispatch(Listeners(listeners, "expire"), TextOrEmpty(item.item.text))
    {
      WithoutIncreasing(history, item.id);
      history := Without(history, item.id);
      NotifyListeners("expire", TextOrEmpty(item.item.text));
    }

    /** The armed `setTimeout` of `item` fires: once, and then it is spent. */
    method FireExpiry(item: Entry<ClipboardItem>)
      requires Valid()
      requires item in pendingExpiries
      modifies this`history, this`trace, this`pendingExpiries
      ensures Valid()
      ensures pendingExpiries == old(pendingExpiries) - {item}
      ensures history == Without(old(history), item.id)
      ensures trace == old(trace) + Dispatch(Listeners(listeners, "expire"), TextOrEmpty(item.item.text))
    {
      pendingExpiries := pendingExpiries - {item};
      RemoveExpiredItem(item);
    }

    /** `getHistory(key?)`: with a truthy key, the first item stored under it, or
        an empty array when there is none; otherwise a copy of the whole history. */
    function GetHistory(key: Option<string>): (r: View)
      reads this
      ensures !Truthy(key) ==> r == Items(history)
      ensures r.Item? ==> Truthy(key) && r.item.item.key == key
      ensures r.Item? ==> exists i :: 0 <= i < |history| && history[i] == r.item &&
                            forall k :: 0 <= k < i ==> history[k].item.key != key
      ensures Truthy(key) && r.Items? ==> r.items == [] && forall e :: e in history ==> e.item.key != key
      ensures Truthy(key) && (exists e :: e in history && e.item.key == key) ==> r.Item?
    {
      if !Truthy(key) then Items(history)
      else match IndexOfKey(history, key.value)
        case None => Items([])
        case Some(i) => Item(history[i])
    }

    /** `on(event, callback)` */
    method On(event: string, callback: ListenerId)
      requires Valid()
      modifies this`listeners
      ensures Valid()
      ensures listeners == Register(old(listeners), event, callback)
    {
      if event !in listeners {
        listeners := listeners[event := []];
      }
      listeners := listeners[event := listeners[event] + [callback]];
    }

    /** `notifyListeners(event, data)`: call each listener of `event` with `data`,
        in registration order. */
    method NotifyListeners(event: string, data: string)
      requires Valid()
      modifies this`trace
      ensures Valid()
      ensures trace == old(trace) + Dispatch(Listeners(listeners, event), data)
    {
      var registered := Listeners(listeners, event);
      var i := 0;
      while i < |registered|
        invariant 0 <= i <= |registered|
        invariant trace == old(trace) + Dispatch(registered[..i], data)
      {
        DispatchExtend(registered, i, data);
        trace := trace + [Invocation(registered[i], data)];
        i := i + 1;
      }
      assert registered[..i] == registered;
    }

    /** `clearHistory()`: empties the history; armed expiries stay armed. */
    method ClearHistory()
      requires Valid()
      modifies this`history
      ensures Valid()
      ensures history == []
    {
      history := [];
    }
  }
}
