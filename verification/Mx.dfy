/** adns::handleMX in include/ioxx/detail/adns.hpp: mail exchangers by preference. */
module Mx {
  import opened Multimap

  /** adns_rr_hostaddr: `naddrs` is -1 if the addresses are not known. */
  datatype HostAddr = HostAddr(host: string, naddrs: int, addrs: seq<string>)

  /** adns_rr_inthostaddr: the key is the preference. */
  type Exchanger = Pair<HostAddr>

  datatype Status = Ok | NxDomain | NoData | Failed

  datatype Answer = Answer(status: Status, rrs: seq<Exchanger>)

  datatype MxName = MxName(host: string, addrs: seq<string>)

  predicate WellFormed(a: Answer) {
    forall i :: 0 <= i < |a.rrs| ==> a.rrs[i].value.naddrs <= |a.rrs[i].value.addrs|
  }

  /** A name is that host's, with its addresses as far as they are known. */
  ghost predicate Names(name: MxName, h: HostAddr) {
    && name.host == h.host
    && (h.naddrs > 0 ==> h.naddrs <= |h.addrs| && name.addrs == h.addrs[..h.naddrs])
    && (h.naddrs <= 0 ==> name.addrs == [])
  }

  /** `names` lists the hosts of `p`, in that order, each with its own addresses. */
  ghost predicate Lists(names: seq<MxName>, p: seq<Exchanger>) {
    |names| == |p| && forall i :: 0 <= i < |p| ==> Names(names[i], p[i].value)
  }

  /** `names` lists the hosts of `rrs` by ascending preference, those of the same
      preference in the order of the answer, none left out. */
  ghost predicate ByPreference(names: seq<MxName>, rrs: seq<Exchanger>) {
    exists p :: Lists(names, p) && Ordered(p) && SameGroups(p, rrs) && multiset(p) == multiset(rrs)
  }

  lemma {:induction false} InsertAllSnoc<V>(q: seq<Pair<V>>, es: seq<Pair<V>>, e: Pair<V>)
    ensures InsertAll(q, es + [e]) == Insert(InsertAll(q, es), e)
    decreases es
  {
    if es == [] {
      assert es + [e] == [e];
    } else {
      InsertAllSnoc(Insert(q, es[0]), es[1..], e);
      assert (es + [e])[1..] == es[1..] + [e];
    }
  }

  /** The answer determines the list. */
  lemma ByPreferenceUnique(a: seq<MxName>, b: seq<MxName>, rrs: seq<Exchanger>)
    requires ByPreference(a, rrs) && ByPreference(b, rrs)
    ensures a == b
  {
    var p :| Lists(a, p) && Ordered(p) && SameGroups(p, rrs);
    var q :| Lists(b, q) && Ordered(q) && SameGroups(q, rrs);
    StableSortCharacterized(rrs, p);
    StableSortCharacterized(rrs, q);
  }

  /** What the client's handler gets: a list, or nothing at all after a failure. */
  method HandleMx(a: Answer) returns (r: Option<seq<MxName>>)
    requires WellFormed(a)
    ensures a.status == Ok ==> r.Some? && ByPreference(r.value, a.rrs)
    ensures a.status == NxDomain || a.status == NoData ==> r == Some([])
    ensures a.status == Failed ==> r == None
  {
    match a.status
    case Ok =>
      var mxs := ListExchangers(a.rrs);
      return Some(mxs);
    case NxDomain => return Some([]);
    case NoData => return Some([]);
    case Failed => return None;
  }

  /** The two loops of the successful case. */
  method ListExchangers(rrs: seq<Exchanger>) returns (mxs: seq<MxName>)
    requires WellFormed(Answer(Ok, rrs))
    ensures ByPreference(mxs, rrs)
  {
    var mxmap: seq<Exchanger> := [];
    for i := 0 to |rrs|
      invariant mxmap == StableSort(rrs[..i])
    {
      InsertAllSnoc([], rrs[..i], rrs[i]);
      assert rrs[..i + 1] == rrs[..i] + [rrs[i]];
      mxmap := Insert(mxmap, rrs[i]);
    }
    assert rrs[..|rrs|] == rrs;
    StableSortCharacterized(rrs, mxmap);
    forall i | 0 <= i < |mxmap| ensures mxmap[i].value.naddrs <= |mxmap[i].value.addrs| {
      assert mxmap[i] in multiset(rrs);
    }
    mxs := [];
    for i := 0 to |mxmap|
      invariant |mxs| == i
      invariant forall k :: 0 <= k < i ==> Names(mxs[k], mxmap[k].value)
    {
      var name := NameExchanger(mxmap[i].value);
      mxs := mxs + [name];
    }
    assert Lists(mxs, mxmap);
  }

  method NameExchanger(addr: HostAddr) returns (name: MxName)
    requires addr.naddrs <= |addr.addrs|
    ensures Names(name, addr)
  {
    var ha := [];
    if addr.naddrs > 0 {
      for j := 0 to addr.naddrs
        invariant ha == addr.addrs[..j]
      {
        ha := ha + [addr.addrs[j]];
      }
    }
    return MxName(addr.host, ha);
  }
}
