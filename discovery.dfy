/**
 * Bridge discovery: choosing an address from mDNS answers (`to_ip_addr` and
 * the listening loop of `mdns_discovery`) and the emptiness check that
 * `find_bridges` applies to the directory service's answer. The network is
 * not modelled: the mDNS stream and the decoded directory answer are inputs.
 */
module Discovery {
  import opened Wrappers

  /** The error `find_bridges` reports for an empty directory answer. */
  const NoBridgesFound: string := "No bridges found"

  /** A candidate bridge: only its address, as text. */
  datatype Bridge = Bridge(internalipaddress: string)

  /** An IP address, carried in its standard textual form. */
  datatype IpAddr = V4(text: string) | V6(text: string)

  /** The kinds of record an mDNS answer can hold. */
  datatype RecordKind =
    | A(v4: string)
    | AAAA(v6: string)
    | CNAME(alias: string)
    | MX(preference: nat, exchange: string)
    | NS(server: string)
    | SRV(priority: nat, weight: nat, port: nat, target: string)
    | TXT(lines: seq<string>)
    | PTR(pointer: string)
    | Unimplemented(data: seq<bv8>)

  datatype Record = Record(name: string, ttl: nat, kind: RecordKind)

  /** One mDNS answer; `records()` walks its three sections in this order. */
  datatype Response = Response(answers: seq<Record>, nameservers: seq<Record>, additional: seq<Record>)

  function Records(r: Response): (records: seq<Record>)
    ensures |records| == |r.answers| + |r.nameservers| + |r.additional|
    ensures records[..|r.answers|] == r.answers
    ensures records[|r.answers|..|r.answers| + |r.nameservers|] == r.nameservers
    ensures records[|r.answers| + |r.nameservers|..] == r.additional
  {
    r.answers + r.nameservers + r.additional
  }

  /** What the listening stream yields next: an answer or a receive error. */
  datatype StreamItem = Item(response: Response) | Failure(message: string)

  /** `to_ip_addr`: an address for the two address records, nothing for any other kind. */
  function ToIpAddr(rec: Record): (r: Option<IpAddr>)
    ensures r.Some? <==> rec.kind.A? || rec.kind.AAAA?
    ensures rec.kind.A? ==> r == Some(V4(rec.kind.v4))
    ensures rec.kind.AAAA? ==> r == Some(V6(rec.kind.v6))
  {
    match rec.kind
    case A(addr) => Some(V4(addr))
    case AAAA(addr) => Some(V6(addr))
    case _ => None
  }

  /** `records.filter_map(to_ip_addr).next()`: the address of the first address record. */
  function FirstAddr(records: seq<Record>): (r: Option<IpAddr>)
    ensures r.None? <==> forall i :: 0 <= i < |records| ==> ToIpAddr(records[i]).None?
    ensures r.Some? ==> exists i :: 0 <= i < |records| && ToIpAddr(records[i]) == r &&
                                    forall j :: 0 <= j < i ==> ToIpAddr(records[j]).None?
  {
    if records == [] then None
    else if ToIpAddr(records[0]).Some? then ToIpAddr(records[0])
    else
      var r := FirstAddr(records[1..]);
      assert forall i :: 1 <= i < |records| ==> records[i] == records[1..][i - 1];
      if r.Some? then
        var i :| 0 <= i < |records[1..]| && ToIpAddr(records[1..][i]) == r &&
                 forall j :: 0 <= j < i ==> ToIpAddr(records[1..][j]).None?;
        assert ToIpAddr(records[i + 1]) == r;
        r
      else r
  }

  /** The address an answer advertises, if any. */
  function Advertised(item: StreamItem): Option<IpAddr>
    requires item.Item?
  {
    FirstAddr(Records(item.response))
  }

  /** An answer without a usable address: the loop logs it and goes on listening. */
  predicate Skipped(item: StreamItem)
  {
    item.Item? && Advertised(item).None?
  }

  /** The loop's result on a stream: at most one bridge, the first usable address before any error. */
  function Discovered(stream: seq<StreamItem>): (bridges: seq<Bridge>)
    ensures |bridges| <= 1
  {
    if stream == [] then []
    else match stream[0]
      case Failure(_) => []
      case Item(response) =>
        match FirstAddr(Records(response))
        case Some(addr) => [Bridge(addr.text)]
        case None => Discovered(stream[1..])
  }

  /** The answer at `k` is the first with a usable address and everything before it was skipped. */
  ghost predicate HitAt(stream: seq<StreamItem>, k: int)
  {
    && 0 <= k < |stream|
    && stream[k].Item?
    && Advertised(stream[k]).Some?
    && forall j :: 0 <= j < k ==> Skipped(stream[j])
  }

  /**
   * `mdns_discovery`. `listen` is what starting the listener gave: a bind
   * error, or the stream of answers it produced. The loop runs while the
   * stream yields answers, stops at the first error or at the end, and
   * stops as soon as one answer has an address.
   */
  method MdnsDiscovery(listen: Result<seq<StreamItem>, string>) returns (r: Result<seq<Bridge>, string>)
    ensures listen.Err? ==> r == Err(listen.error)
    ensures listen.Ok? ==> r == Ok(Discovered(listen.value))
  {
    if listen.Err? {
      return Err(listen.error);
    }
    var stream := listen.value;
    var bridges: seq<Bridge> := [];
    var i := 0;
    while i < |stream| && stream[i].Item?
      invariant 0 <= i <= |stream|
      invariant bridges == []
      invariant Discovered(stream) == Discovered(stream[i..])
    {
      assert stream[i..][0] == stream[i];
      var addr := FirstAddr(Records(stream[i].response));
      if addr.Some? {
        bridges := bridges + [Bridge(addr.value.text)];
        assert bridges == Discovered(stream[i..]);
        break;
      }
      assert stream[i..][1..] == stream[i + 1..];
      i := i + 1;
    }
    assert i < |stream| ==> stream[i..][0] == stream[i];
    assert bridges == Discovered(stream[i..]);
    r := Ok(bridges);
  }

  /** The first answer with an address decides the result; nothing after it is consulted. */
  lemma {:induction false} DiscoveredFindsFirstHit(stream: seq<StreamItem>, k: int)
    requires HitAt(stream, k)
    ensures Discovered(stream) == [Bridge(Advertised(stream[k]).value.text)]
  {
    if k > 0 {
      assert Skipped(stream[0]);
      var rest := stream[1..];
      forall j | 0 <= j < k - 1 ensures Skipped(rest[j]) {
        assert rest[j] == stream[j + 1];
      }
      assert rest[k - 1] == stream[k];
      assert HitAt(rest, k - 1);
      DiscoveredFindsFirstHit(rest, k - 1);
    }
  }

  /** A non-empty result always comes from such a first answer. */
  lemma {:induction false} DiscoveredHasHit(stream: seq<StreamItem>)
    requires Discovered(stream) != []
    ensures exists k :: HitAt(stream, k)
  {
    assert stream != [] && stream[0].Item?;
    if Advertised(stream[0]).Some? {
      assert HitAt(stream, 0);
    } else {
      var rest := stream[1..];
      DiscoveredHasHit(rest);
      var k :| HitAt(rest, k);
      forall j | 0 <= j < k + 1 ensures Skipped(stream[j]) {
        if j > 0 { assert stream[j] == rest[j - 1]; }
      }
      assert stream[k + 1] == rest[k];
      assert HitAt(stream, k + 1);
    }
  }

  /** The result is empty exactly when no answer before the first error carries an address. */
  lemma DiscoveredEmptyIff(stream: seq<StreamItem>)
    ensures Discovered(stream) == [] <==> forall k :: !HitAt(stream, k)
  {
    if Discovered(stream) != [] {
      DiscoveredHasHit(stream);
    }
    forall k | HitAt(stream, k) ensures Discovered(stream) != [] {
      DiscoveredFindsFirstHit(stream, k);
    }
  }

  /** A receive error ends listening: what follows it is never looked at. */
  lemma {:induction false} DiscoveredStopsAtFailure(before: seq<StreamItem>, message: string, after: seq<StreamItem>)
    ensures Discovered(before + [Failure(message)] + after) == Discovered(before)
  {
    var stream := before + [Failure(message)] + after;
    if before != [] {
      assert stream[0] == before[0];
      assert stream[1..] == before[1..] + [Failure(message)] + after;
      DiscoveredStopsAtFailure(before[1..], message, after);
    }
  }

  /**
   * `find_bridges` past the network: `fetched` is the decoded directory
   * answer or the transport/decoding error message. An empty list becomes
   * an error; any other list is passed through unchanged.
   */
  function FindBridges(fetched: Result<seq<Bridge>, string>): (r: Result<seq<Bridge>, string>)
    ensures r.Err? <==> fetched.Err? || fetched.value == []
    ensures fetched.Err? ==> r == Err(fetched.error)
    ensures fetched.Ok? && fetched.value == [] ==> r == Err(NoBridgesFound)
    ensures r.Ok? ==> fetched.Ok? && r.value == fetched.value && r.value != []
  {
    match fetched
    case Err(e) => Err(e)
    case Ok(list) => if list == [] then Err(NoBridgesFound) else Ok(list)
  }
}
