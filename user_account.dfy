/**
 * A user account: a header value bound to the account's byte buffer. After the
 * header's bytes the buffer holds a dense array of 16-byte little-endian order
 * ids; `numberOfOrders` in the in-memory header says how many slots are in use.
 */
module UserAccounts {
  import opened Bytes
  import opened Errors
  import opened State

  /** Bytes per order id. */
  const OrderLen: nat := 16

  /** The host's largest account size (10 MiB); it bounds the slab's capacity. */
  const MaxPermittedDataLength: nat := 10 * 1024 * 1024

  /** Where slot i starts in the buffer. */
  function SlotOffset(i: nat): nat
  {
    HeaderLen + OrderLen * i
  }

  /** The order id stored in slot i: the 16 bytes at its offset, little-endian. */
  function ReadSlot(buf: seq<u8>, i: nat): u128
    requires SlotOffset(i) + OrderLen <= |buf|
  {
    U128FromLe(buf[SlotOffset(i)..SlotOffset(i) + OrderLen])
  }

  /** The order ids of the first n slots. */
  function SlabOrders(buf: seq<u8>, n: nat): (s: seq<u128>)
    requires SlotOffset(n) <= |buf|
    ensures |s| == n
    ensures forall i :: 0 <= i < n ==> U128ToLe(s[i]) == buf[SlotOffset(i)..SlotOffset(i) + OrderLen]
  {
    seq(n, i requires 0 <= i < n => ReadSlot(buf, i))
  }

  /** The buffer with order id v written into slot i and every other byte as it was. */
  function WriteSlot(buf: seq<u8>, i: nat, v: u128): (r: seq<u8>)
    requires SlotOffset(i) + OrderLen <= |buf|
    ensures |r| == |buf|
    ensures r[..HeaderLen] == buf[..HeaderLen]
  {
    buf[..SlotOffset(i)] + U128ToLe(v) + buf[SlotOffset(i) + OrderLen..]
  }

  /**
   * Writing a slot touches only that slot's 16 bytes: the header bytes and every
   * other slot, occupied or vacated, keep their contents.
   */
  lemma WriteSlotFrame(buf: seq<u8>, i: nat, v: u128, k: nat)
    requires SlotOffset(i) + OrderLen <= |buf| && k < |buf|
    ensures WriteSlot(buf, i, v)[k] == if SlotOffset(i) <= k < SlotOffset(i) + OrderLen
      then U128ToLe(v)[k - SlotOffset(i)] else buf[k]
  {
  }

  /** How many slots fit after the header in a buffer of the given length. */
  function Capacity(bufLen: nat): nat
  {
    if bufLen < HeaderLen then 0 else (bufLen - HeaderLen) / OrderLen
  }

  /** A slot fits in the buffer exactly when its index is below the capacity. */
  lemma SlotFitsBelowCapacity(bufLen: nat, i: nat)
    ensures SlotOffset(i) + OrderLen <= bufLen <==> i < Capacity(bufLen)
  {
  }

  /** Writing a slot changes that slot's id and no other slot's. */
  lemma ReadAfterWrite(buf: seq<u8>, i: nat, v: u128, j: nat)
    requires SlotOffset(i) + OrderLen <= |buf| && SlotOffset(j) + OrderLen <= |buf|
    ensures ReadSlot(WriteSlot(buf, i, v), j) == if i == j then v else ReadSlot(buf, j)
  {
    var w := WriteSlot(buf, i, v);
    if i == j {
      assert w[SlotOffset(j)..SlotOffset(j) + OrderLen] == U128ToLe(v);
      U128RoundTrip(v);
    } else {
      assert w[SlotOffset(j)..SlotOffset(j) + OrderLen] == buf[SlotOffset(j)..SlotOffset(j) + OrderLen];
    }
  }

  /** Overwriting an occupied slot replaces one element of the order list. */
  lemma {:induction false} SlabAfterOverwrite(buf: seq<u8>, n: nat, i: nat, v: u128)
    requires SlotOffset(n) <= |buf| && i < n
    ensures SlabOrders(WriteSlot(buf, i, v), n) == SlabOrders(buf, n)[i := v]
  {
    forall j | 0 <= j < n
      ensures SlabOrders(WriteSlot(buf, i, v), n)[j] == SlabOrders(buf, n)[i := v][j]
    {
      ReadAfterWrite(buf, i, v, j);
    }
  }

  /** Writing the first free slot and counting it appends to the order list. */
  lemma {:induction false} SlabAfterAppend(buf: seq<u8>, n: nat, v: u128)
    requires SlotOffset(n) + OrderLen <= |buf|
    ensures SlabOrders(WriteSlot(buf, n, v), n + 1) == SlabOrders(buf, n) + [v]
  {
    forall j | 0 <= j < n + 1
      ensures SlabOrders(WriteSlot(buf, n, v), n + 1)[j] == (SlabOrders(buf, n) + [v])[j]
    {
      ReadAfterWrite(buf, n, v, j);
    }
  }

  /** Counting one slot fewer drops the last order id. */
  lemma SlabShrink(buf: seq<u8>, n: nat)
    requires 0 < n && SlotOffset(n) <= |buf|
    ensures SlabOrders(buf, n - 1) == SlabOrders(buf, n)[..n - 1]
  {
  }

  /** The slab does not depend on the header bytes in front of it. */
  lemma SlabIgnoresHeader(buf: seq<u8>, header: seq<u8>, n: nat)
    requires SlotOffset(n) <= |buf| && |header| == HeaderLen
    ensures SlabOrders(header + buf[HeaderLen..], n) == SlabOrders(buf, n)
  {
    var b := header + buf[HeaderLen..];
    forall j | 0 <= j < n
      ensures SlabOrders(b, n)[j] == SlabOrders(buf, n)[j]
    {
      assert b[SlotOffset(j)..SlotOffset(j) + OrderLen] == buf[SlotOffset(j)..SlotOffset(j) + OrderLen];
    }
  }

  /**
   * Swap-removal from a list: the last element takes the place of element i and
   * the list loses its last position.
   */
  function SwapRemove(s: seq<u128>, i: nat): seq<u128>
    requires i < |s|
  {
    s[i := s[|s| - 1]][..|s| - 1]
  }

  /**
   * Swap-removal shortens the list by one, moves the former last element into
   * position i unless i was last, keeps every other position, and removes exactly
   * one occurrence of s[i].
   */
  lemma SwapRemoveSpec(s: seq<u128>, i: nat)
    requires i < |s|
    ensures |SwapRemove(s, i)| == |s| - 1
    ensures i < |s| - 1 ==> SwapRemove(s, i)[i] == s[|s| - 1]
    ensures forall j :: 0 <= j < |s| - 1 && j != i ==> SwapRemove(s, i)[j] == s[j]
    ensures multiset(SwapRemove(s, i)) == multiset(s) - multiset{s[i]}
  {
    var last := |s| - 1;
    if i == last {
      assert s == s[..last] + [s[i]];
    } else {
      assert s == s[..i] + [s[i]] + s[i + 1..last] + [s[last]];
      assert SwapRemove(s, i) == s[..i] + [s[last]] + s[i + 1..last];
    }
  }

  /**
   * Swap-removal on the bytes: moving the last slot's id into slot i (unless i is
   * last) and counting one slot fewer swap-removes element i of the order list.
   */
  lemma SlabAfterSwapRemove(buf: seq<u8>, n: nat, i: nat)
    requires i < n && SlotOffset(n) <= |buf|
    ensures SlabOrders(if i == n - 1 then buf else WriteSlot(buf, i, SlabOrders(buf, n)[n - 1]), n - 1)
      == SwapRemove(SlabOrders(buf, n), i)
  {
    var s := SlabOrders(buf, n);
    if i == n - 1 {
      assert s[i := s[n - 1]] == s;
      SlabShrink(buf, n);
    } else {
      var w := WriteSlot(buf, i, s[n - 1]);
      SlabAfterOverwrite(buf, n, i, s[n - 1]);
      SlabShrink(w, n);
    }
  }

  class UserAccount {
    /** The header as this handle currently sees it; written back by Write. */
    var header: UserAccountHeader
    /** The account's buffer, shared with the caller. */
    const data: array<u8>

    /**
     * The dense prefix fits in the buffer, and the buffer is no larger than the
     * host allows, which keeps the 32-bit slot arithmetic from wrapping.
     */
    ghost predicate Valid()
      reads this
    {
      SlotOffset(header.numberOfOrders) <= data.Length <= MaxPermittedDataLength
    }

    /** The active order ids, in slot order. */
    ghost function Orders(): (s: seq<u128>)
      reads this, data
      requires Valid()
      ensures |s| == header.numberOfOrders
    {
      SlabOrders(data[..], header.numberOfOrders)
    }

    /** Binds a header value to a buffer. */
    constructor (data: array<u8>, header: UserAccountHeader)
      ensures this.data == data && this.header == header
    {
      this.data := data;
      this.header := header;
    }

    /**
     * Reads the header from the buffer's leading bytes and binds it to the buffer.
     * A buffer shorter than a header is a caller error.
     */
    static method Parse(data: array<u8>) returns (r: Result<UserAccount, ProgramError>)
      requires data.Length >= HeaderLen
      ensures r.Err? <==> Unpack(data[..HeaderLen]).Err?
      ensures r.Err? ==> r.error == Unpack(data[..HeaderLen]).error
      ensures r.Ok? ==> (fresh(r.value) && r.value.data == data
        && r.value.header == Unpack(data[..HeaderLen]).value)
    {
      match Unpack(data[..HeaderLen])
      case Err(e) =>
        return Err(e);
      case Ok(h) =>
        var account := new UserAccount(data, h);
        return Ok(account);
    }

    /** Serialises the in-memory header into the buffer's leading bytes. */
    method Write()
      requires data.Length >= HeaderLen
      modifies data
      ensures data[..] == EncodeHeader(header) + old(data[HeaderLen..])
      ensures DecodeHeader(data[..HeaderLen]) == Ok(header)
      ensures Unpack(data[..HeaderLen]) == if IsInitialized(header) then Ok(header) else Err(UninitializedAccount)
      ensures Valid() ==> Orders() == old(Orders())
    {
      var bytes := EncodeHeader(header);
      forall k | 0 <= k < HeaderLen {
        data[k] := bytes[k];
      }
      assert data[..] == bytes + old(data[HeaderLen..]);
      assert data[..HeaderLen] == bytes;
      DecodeEncodeHeader(header);
      UnpackPacked(header);
      if Valid() {
        SlabIgnoresHeader(old(data[..]), bytes, header.numberOfOrders);
      }
    }

    /** The id in an occupied slot; an index past the dense prefix is refused. */
    method ReadOrder(orderIndex: nat) returns (r: Result<u128, DexError>)
      requires Valid()
      ensures r.Err? <==> orderIndex >= header.numberOfOrders
      ensures r.Err? ==> r.error == InvalidOrderIndex
      ensures r.Ok? ==> r.value == Orders()[orderIndex]
      ensures r.Ok? ==> U128ToLe(r.value) == data[SlotOffset(orderIndex)..SlotOffset(orderIndex) + OrderLen]
    {
      if orderIndex >= header.numberOfOrders {
        return Err(InvalidOrderIndex);
      }
      return Ok(ReadSlot(data[..], orderIndex));
    }

    /** Copies the encoding of v into slot i; no other byte changes. */
    method StoreSlot(i: nat, v: u128)
      requires SlotOffset(i) + OrderLen <= data.Length
      modifies data
      ensures data[..] == WriteSlot(old(data[..]), i, v)
    {
      var offset := HeaderLen + i * OrderLen;
      var bytes := U128ToLe(v);
      forall k | 0 <= k < OrderLen {
        data[offset + k] := bytes[k];
      }
      assert data[..] == old(data[..offset]) + bytes + old(data[offset + OrderLen..]);
    }

    /**
     * Swap-removal of the order in slot `orderIndex`: the last order moves into
     * that slot (unless it is the last one) and the count drops by one. The
     * vacated last slot keeps its bytes, and the header bytes in the buffer are
     * not touched until Write.
     */
    method RemoveOrder(orderIndex: nat) returns (r: Result<(), DexError>)
      requires Valid()
      modifies this, data
      ensures Valid()
      ensures r.Err? <==> orderIndex >= old(header.numberOfOrders)
      ensures r.Err? ==> (r.error == InvalidOrderIndex
        && header == old(header) && data[..] == old(data[..]))
      ensures r.Ok? ==> header == old(header).(numberOfOrders := old(header.numberOfOrders) - 1)
      ensures r.Ok? ==> Orders() == SwapRemove(old(Orders()), orderIndex)
      ensures r.Ok? ==> (data[..] ==
        if orderIndex == old(header.numberOfOrders) - 1 then old(data[..])
        else WriteSlot(old(data[..]), orderIndex, old(Orders())[old(header.numberOfOrders) - 1]))
      ensures data[..HeaderLen] == old(data[..HeaderLen])
    {
      var n := header.numberOfOrders;
      if orderIndex >= n {
        return Err(InvalidOrderIndex);
      }
      ghost var buf := data[..];
      if n - orderIndex != 1 {
        // Reading the last slot cannot fail: n - 1 < n.
        var lastOrder := ReadSlot(data[..], n - 1);
        StoreSlot(orderIndex, lastOrder);
      }
      SlabAfterSwapRemove(buf, n, orderIndex);
      header := header.(numberOfOrders := n - 1);
      return Ok(());
    }

    /**
     * Stores an order id in the first free slot and counts it. When the buffer
     * has no room for another slot, nothing changes.
     */
    method AddOrder(order: u128) returns (r: Result<(), DexError>)
      requires Valid()
      modifies this, data
      ensures Valid()
      ensures r.Err? <==> SlotOffset(old(header.numberOfOrders)) + OrderLen > data.Length
      ensures r.Err? ==> (r.error == UserAccountFull
        && header == old(header) && data[..] == old(data[..]))
      ensures r.Ok? ==> header == old(header).(numberOfOrders := old(header.numberOfOrders) + 1)
      ensures r.Ok? ==> Orders() == old(Orders()) + [order]
      ensures r.Ok? ==> data[..] == WriteSlot(old(data[..]), old(header.numberOfOrders), order)
      ensures data[..HeaderLen] == old(data[..HeaderLen])
    {
      var n := header.numberOfOrders;
      // The slot arithmetic is 32-bit in the account format; Valid keeps it exact.
      assert n * OrderLen < U32Modulus;
      var offset := HeaderLen + n * OrderLen;
      if offset + OrderLen > data.Length {
        return Err(UserAccountFull);
      }
      ghost var buf := data[..];
      StoreSlot(n, order);
      SlabAfterAppend(buf, n, order);
      header := header.(numberOfOrders := n + 1);
      return Ok(());
    }

    /** The first slot holding `orderId`, scanning the dense prefix in order. */
    method FindOrderIndex(orderId: u128) returns (r: Result<nat, DexError>)
      requires Valid()
      ensures r.Ok? ==> r.value < header.numberOfOrders && Orders()[r.value] == orderId
      ensures r.Ok? ==> forall j :: 0 <= j < r.value ==> Orders()[j] != orderId
      ensures r.Err? ==> r.error == OrderNotFound && orderId !in Orders()
    {
      var n := header.numberOfOrders;
      var i := 0;
      while i < n
        invariant 0 <= i <= n
        invariant forall j :: 0 <= j < i ==> Orders()[j] != orderId
      {
        if ReadSlot(data[..], i) == orderId {
          return Ok(i);
        }
        i := i + 1;
      }
      return Err(OrderNotFound);
    }
  }

  /**
   * Adding an id that is not yet present and then searching for it finds it in
   * the last occupied slot.
   */
  method AddThenFind(account: UserAccount, id: u128) returns (added: Result<(), DexError>, found: Result<nat, DexError>)
    requires account.Valid() && id !in account.Orders()
    modifies account, account.data
    ensures added.Ok? ==> found == Ok(account.header.numberOfOrders - 1)
  {
    added := account.AddOrder(id);
    found := account.FindOrderIndex(id);
    if added.Ok? {
      assert account.Orders()[account.header.numberOfOrders - 1] == id;
    }
  }

  /**
   * A buffer with room for three orders: three adds succeed, a fourth is refused
   * as full, and removing slot 0 moves the last order into it.
   */
  method ThreeSlotScenario(a: u128, b: u128, c: u128, d: u128, owner: Pubkey, market: Pubkey)
  {
    var data := new u8[SlotOffset(3)];
    var header := UserAccountHeader(AccountTag.UserAccount, market, owner, 0, 0, 0, 0, 0, 0);
    var account := new UserAccount(data, header);
    var r := account.AddOrder(a);
    assert r.Ok? && account.Orders() == [a];
    r := account.AddOrder(b);
    assert r.Ok? && account.Orders() == [a, b];
    r := account.AddOrder(c);
    assert r.Ok? && account.Orders() == [a, b, c];
    r := account.AddOrder(d);
    assert r == Err(UserAccountFull) && account.header.numberOfOrders == 3;
    assert SwapRemove([a, b, c], 0) == [c, b];
    r := account.RemoveOrder(0);
    assert r.Ok? && account.Orders() == [c, b] && account.header.numberOfOrders == 2;
  }
}
