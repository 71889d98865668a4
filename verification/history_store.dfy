/**
 * The per-session history: an ordered list of exchanges, addressed by
 * position, with the four list operations the request handlers use
 * (`list.append`, `list[i]`, `list[i] = e`, `list.pop(i)`).
 */
module HistoryStore {
  import opened Wrappers

  /** One prompt/response exchange, as stored in the session. */
  datatype Exchange = Exchange(prompt: string, responseRaw: string, responseHtml: string, createdAt: string)

  /** `history.append(e)`: one more record, at the end. */
  function Append(h: seq<Exchange>, e: Exchange): (r: seq<Exchange>)
    ensures |r| == |h| + 1
    ensures r[|h|] == e
    ensures forall j :: 0 <= j < |h| ==> r[j] == h[j]
  {
    h + [e]
  }

  /** Bounds-checked read: a record exactly for the positions `0 <= i < |h|`. */
  function Lookup(h: seq<Exchange>, i: int): (r: Option<Exchange>)
    ensures r.Some? <==> 0 <= i < |h|
    ensures r.Some? ==> r.value == h[i]
  {
    if 0 <= i < |h| then Some(h[i]) else None
  }

  /** `history[i] = e`: position `i` now holds `e`, every other position is as it was. */
  function Replace(h: seq<Exchange>, i: int, e: Exchange): (r: seq<Exchange>)
    requires 0 <= i < |h|
    ensures |r| == |h|
    ensures r[i] == e
    ensures forall j :: 0 <= j < |h| && j != i ==> r[j] == h[j]
  {
    h[i := e]
  }

  /** `history.pop(i)`: the records before `i` stay, the ones after move one place left. */
  function Remove(h: seq<Exchange>, i: int): (r: seq<Exchange>)
    requires 0 <= i < |h|
    ensures |r| == |h| - 1
    ensures forall j :: 0 <= j < i ==> r[j] == h[j]
    ensures forall j :: i <= j < |r| ==> r[j] == h[j + 1]
  {
    h[..i] + h[i + 1..]
  }

  /** Removing the record just appended gives back the list as it was. */
  lemma RemoveUndoesAppend(h: seq<Exchange>, e: Exchange)
    ensures Remove(Append(h, e), |h|) == h
  {
  }

  /** Putting the removed record back at its position restores the list. */
  lemma RemoveThenReinsert(h: seq<Exchange>, i: int)
    requires 0 <= i < |h|
    ensures Remove(h, i)[..i] + [h[i]] + Remove(h, i)[i..] == h
  {
  }

  /** Writing back the old record undoes a replacement. */
  lemma ReplaceUndone(h: seq<Exchange>, i: int, e: Exchange)
    requires 0 <= i < |h|
    ensures Replace(Replace(h, i, e), i, h[i]) == h
  {
  }

  /** Reads after an append: old positions read as before, the new last one reads `e`. */
  lemma LookupAfterAppend(h: seq<Exchange>, e: Exchange, j: int)
    ensures Lookup(Append(h, e), j) == if j == |h| then Some(e) else Lookup(h, j)
  {
  }

  /** Reads after a replacement: only position `i` reads differently. */
  lemma LookupAfterReplace(h: seq<Exchange>, i: int, e: Exchange, j: int)
    requires 0 <= i < |h|
    ensures Lookup(Replace(h, i, e), j) == if j == i then Some(e) else Lookup(h, j)
  {
  }

  /** Reads after a removal: positions from `i` on read what the next position read before. */
  lemma LookupAfterRemove(h: seq<Exchange>, i: int, j: int)
    requires 0 <= i < |h|
    ensures Lookup(Remove(h, i), j) == if j < i then Lookup(h, j) else Lookup(h, j + 1)
  {
  }
}
