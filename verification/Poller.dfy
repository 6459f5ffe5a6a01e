/** The container poller (server/server.go): its digest of a listing and when it triggers. */
module Poller {
  import opened Wrappers
  import opened Lists
  import opened Sorting
  import opened Json

  /** A running container as the poller reads it. */
  datatype Listed = Listed(id: string, publicPorts: seq<int>)

  function Id(c: Listed): string { c.id }

  function Published(c: Listed): seq<int> { c.publicPorts }

  function Ids(listing: seq<Listed>): seq<string> {
    Apply(listing, Id)
  }

  function Ports(listing: seq<Listed>): seq<int> {
    Concat(listing, Published)
  }

  /** The bytes that are hashed. */
  function DigestInput(listing: seq<Listed>): string {
    MarshalStrings(Sort(Ids(listing), StringLe)) + MarshalInts(Sort(Ports(listing), IntLe))
  }

  /** How often port p is published in a listing. */
  function PortCount(listing: seq<Listed>, p: int): nat {
    if listing == [] then 0
    else PortCount(listing[..|listing| - 1], p) + multiset(Last(listing).publicPorts)[p]
  }

  /** How many containers of a listing have that ID. */
  function IdCount(listing: seq<Listed>, id: string): nat {
    if listing == [] then 0 else IdCount(listing[..|listing| - 1], id) + if Last(listing).id == id then 1 else 0
  }

  /** The collected ports and IDs are those of the records. */
  lemma {:induction false} CollectedCounts(listing: seq<Listed>)
    ensures forall p :: multiset(Ports(listing))[p] == PortCount(listing, p)
    ensures forall id :: multiset(Ids(listing))[id] == IdCount(listing, id)
  {
    if listing != [] {
      var init := listing[..|listing| - 1];
      CollectedCounts(init);
      assert Ids(listing) == Ids(init) + [Last(listing).id];
    }
  }

  /** Every published port of every container is collected. */
  lemma {:induction false} PortsCollected(listing: seq<Listed>, i: nat, p: int)
    requires i < |listing| && p in listing[i].publicPorts
    ensures PortCount(listing, p) > 0 && p in Ports(listing)
  {
    CollectedCounts(listing);
    if i < |listing| - 1 {
      PortsCollected(listing[..|listing| - 1], i, p);
    } else {
      assert p in multiset(Last(listing).publicPorts);
    }
    assert p in multiset(Ports(listing));
  }

  /** The same container IDs and the same published ports, in any order. Which container
      publishes which port is not looked at. */
  ghost predicate SameListing(a: seq<Listed>, b: seq<Listed>) {
    && (forall id :: IdCount(a, id) == IdCount(b, id))
    && (forall p :: PortCount(a, p) == PortCount(b, p))
  }

  lemma {:induction false} SameListingCollected(a: seq<Listed>, b: seq<Listed>)
    ensures SameListing(a, b) <==> multiset(Ids(a)) == multiset(Ids(b)) && multiset(Ports(a)) == multiset(Ports(b))
  {
    CollectedCounts(a);
    CollectedCounts(b);
    if SameListing(a, b) {
      assert forall id :: multiset(Ids(a))[id] == multiset(Ids(b))[id];
      assert forall p :: multiset(Ports(a))[p] == multiset(Ports(b))[p];
    }
    if multiset(Ids(a)) == multiset(Ids(b)) && multiset(Ports(a)) == multiset(Ports(b)) {
      forall id ensures IdCount(a, id) == IdCount(b, id) {
        assert multiset(Ids(a))[id] == multiset(Ids(b))[id];
      }
      forall p ensures PortCount(a, p) == PortCount(b, p) {
        assert multiset(Ports(a))[p] == multiset(Ports(b))[p];
      }
    }
  }

  ghost predicate HexIds(listing: seq<Listed>) {
    AllHexadecimal(Ids(listing))
  }

  /** The hashed bytes agree exactly when the listings do. */
  lemma {:induction false} DigestFaithful(a: seq<Listed>, b: seq<Listed>)
    requires HexIds(a) && HexIds(b)
    ensures DigestInput(a) == DigestInput(b) <==> SameListing(a, b)
  {
    StringOrder();
    IntOrder();
    SameListingCollected(a, b);
    SortsAlike(Ids(a), Ids(b), StringLe);
    SortsAlike(Ports(a), Ports(b), IntLe);
    SortedHex(Ids(a));
    SortedHex(Ids(b));
    MarshalInjective(Sort(Ids(a), StringLe), Sort(Ids(b), StringLe), Sort(Ports(a), IntLe), Sort(Ports(b), IntLe));
  }

  lemma {:induction false} SortedHex(ids: seq<string>)
    requires AllHexadecimal(ids)
    ensures AllHexadecimal(Sort(ids, StringLe))
  {
    StringOrder();
    SortCorrect(ids, StringLe);
    forall x | x in Sort(ids, StringLe) ensures Hexadecimal(x) {
      assert x in multiset(Sort(ids, StringLe));
      assert x in ids;
    }
  }

  // ---- Runs ----

  type Poll = Option<seq<Listed>>

  /** The listings of the polls that did not fail. */
  function Successful(polls: seq<Poll>): seq<seq<Listed>> {
    if polls == [] then
      []
    else
      var init := Successful(polls[..|polls| - 1]);
      if Last(polls).Some? then init + [Last(polls).value] else init
  }

  lemma {:induction false} SuccessfulStep(polls: seq<Poll>, i: nat)
    requires i < |polls|
    ensures Successful(polls[..i + 1])
         == if polls[i].Some? then Successful(polls[..i]) + [polls[i].value] else Successful(polls[..i])
  {
    assert polls[..i + 1][..i] == polls[..i];
  }

  /** The hashes of a series of listings. */
  function Sums(digest: string -> string, ls: seq<seq<Listed>>): (sums: seq<string>)
    ensures |sums| == |ls| && forall i :: 0 <= i < |ls| ==> sums[i] == digest(DigestInput(ls[i]))
  {
    seq(|ls|, i requires 0 <= i < |ls| => digest(DigestInput(ls[i])))
  }

  lemma {:induction false} SumsStep(digest: string -> string, ls: seq<seq<Listed>>, l: seq<Listed>)
    ensures Sums(digest, ls + [l]) == Sums(digest, ls) + [digest(DigestInput(l))]
  {
  }

  /** The hash that the server remembers after a series of hashes. */
  function Remembered(sums: seq<string>): string {
    if sums == [] then "" else Last(sums)
  }

  /** The number of messages posted: one for each hash that differs from the remembered one. */
  function Posts(sums: seq<string>): nat {
    if sums == [] then
      0
    else
      var init := sums[..|sums| - 1];
      Posts(init) + if Last(sums) != Remembered(init) then 1 else 0
  }

  lemma {:induction false} PostsStep(sums: seq<string>, sum: string)
    ensures Posts(sums + [sum]) == Posts(sums) + if sum != Remembered(sums) then 1 else 0
    ensures Remembered(sums + [sum]) == sum
  {
    assert (sums + [sum])[..|sums|] == sums;
  }

  /** Gathers the IDs and the public ports of a listing. */
  method Collect(containers: seq<Listed>) returns (containerIDs: seq<string>, ports: seq<int>)
    ensures containerIDs == Ids(containers) && ports == Ports(containers)
    ensures |containerIDs| == |containers| && forall i :: 0 <= i < |containers| ==> containerIDs[i] == containers[i].id
    ensures forall p :: multiset(ports)[p] == PortCount(containers, p)
  {
    containerIDs, ports := [], [];
    for i := 0 to |containers|
      invariant containerIDs == Ids(containers[..i]) && ports == Ports(containers[..i])
    {
      containerIDs := containerIDs + [containers[i].id];
      for j := 0 to |containers[i].publicPorts|
        invariant ports == Ports(containers[..i]) + containers[i].publicPorts[..j]
      {
        ports := ports + [containers[i].publicPorts[j]];
      }
      assert containers[..i + 1] == containers[..i] + [containers[i]];
      ConcatStep(containers[..i], containers[i], Published);
      assert containers[i].publicPorts[..|containers[i].publicPorts|] == containers[i].publicPorts;
    }
    assert containers[..|containers|] == containers;
    CollectedCounts(containers);
  }

  class Server {
    /** The hexadecimal SHA-256 sum (section 6.2 of FIPS 180-4). */
    const digest: string -> string
    var containerHash: string

    constructor (digest: string -> string)
      ensures containerHash == "" && this.digest == digest
    {
      this.digest := digest;
      containerHash := "";
    }

    /** One tick of the poller; posted tells whether a restart message is sent. */
    method PollOnce(poll: Poll) returns (posted: bool)
      modifies this
      ensures poll.None? ==> !posted && containerHash == old(containerHash)
      ensures poll.Some? ==> containerHash == digest(DigestInput(poll.value))
      ensures posted <==> containerHash != old(containerHash)
    {
      posted := false;
      if poll.None? {
        return;
      }
      var containerIDs, ports := Collect(poll.value);
      containerIDs := Sort(containerIDs, StringLe);
      ports := Sort(ports, IntLe);
      var sum := digest(MarshalStrings(containerIDs) + MarshalInts(ports));
      if sum != containerHash {
        containerHash := sum;
        posted := true;
      }
    }

    /** The poller's loop over a series of ticks. */
    method Run(polls: seq<Poll>) returns (messages: nat)
      requires containerHash == ""
      modifies this
      ensures messages == Posts(Sums(digest, Successful(polls)))
      ensures containerHash == Remembered(Sums(digest, Successful(polls)))
    {
      ghost var sums: seq<string> := [];
      messages := 0;
      for i := 0 to |polls|
        invariant sums == Sums(digest, Successful(polls[..i]))
        invariant messages == Posts(sums) && containerHash == Remembered(sums)
      {
        SuccessfulStep(polls, i);
        var posted := PollOnce(polls[i]);
        if posted {
          messages := messages + 1;
        }
        if polls[i].Some? {
          SumsStep(digest, Successful(polls[..i]), polls[i].value);
          PostsStep(sums, containerHash);
          sums := sums + [containerHash];
        }
      }
      assert polls[..|polls|] == polls;
    }
  }

  /** One for the first listing, and one for each change from one listing to the next. */
  ghost function Changes(ls: seq<seq<Listed>>): nat {
    if ls == [] then
      0
    else
      var init := ls[..|ls| - 1];
      Changes(init) + if init != [] && SameListing(Last(init), Last(ls)) then 0 else 1
  }

  ghost predicate Collide(digest: string -> string, a: seq<Listed>, b: seq<Listed>) {
    digest(DigestInput(a)) == digest(DigestInput(b)) && DigestInput(a) != DigestInput(b)
  }

  /** No change is hidden by two hashed inputs with the same digest. */
  ghost predicate NoCollision(digest: string -> string, ls: seq<seq<Listed>>) {
    forall i :: 0 < i < |ls| ==> !Collide(digest, ls[i - 1], ls[i])
  }

  lemma {:induction false} SumsAgree(digest: string -> string, a: seq<Listed>, b: seq<Listed>)
    requires HexIds(a) && HexIds(b)
    ensures digest(DigestInput(a)) == digest(DigestInput(b)) <==> SameListing(a, b) || Collide(digest, a, b)
    ensures Collide(digest, a, b) ==> !SameListing(a, b)
  {
    DigestFaithful(a, b);
  }

  /** The poller never posts more messages than there are changes, and it posts one for each
      change exactly when no adjacent digests collide. */
  lemma {:induction false} PostsAreChanges(digest: string -> string, ls: seq<seq<Listed>>)
    requires forall s :: digest(s) != ""
    requires forall i :: 0 <= i < |ls| ==> HexIds(ls[i])
    ensures Posts(Sums(digest, ls)) <= Changes(ls)
    ensures Posts(Sums(digest, ls)) == Changes(ls) <==> NoCollision(digest, ls)
  {
    if ls != [] {
      var init, l := ls[..|ls| - 1], Last(ls);
      assert ls == init + [l];
      PostsAreChanges(digest, init);
      NextPost(digest, init, l);
      ChangesStep(init, l);
      if init != [] {
        SumsAgree(digest, Last(init), l);
        CollisionStep(digest, init, l);
      }
    }
  }

  /** The next listing is posted exactly when its hash is not that of the one before. */
  lemma {:induction false} NextPost(digest: string -> string, ls: seq<seq<Listed>>, l: seq<Listed>)
    requires digest(DigestInput(l)) != ""
    ensures Posts(Sums(digest, ls + [l])) == Posts(Sums(digest, ls))
          + if ls != [] && digest(DigestInput(Last(ls))) == digest(DigestInput(l)) then 0 else 1
  {
    SumsStep(digest, ls, l);
    PostsStep(Sums(digest, ls), digest(DigestInput(l)));
  }

  lemma {:induction false} ChangesStep(ls: seq<seq<Listed>>, l: seq<Listed>)
    ensures Changes(ls + [l]) == Changes(ls) + if ls != [] && SameListing(Last(ls), l) then 0 else 1
  {
    assert (ls + [l])[..|ls|] == ls;
  }

  lemma {:induction false} CollisionStep(digest: string -> string, ls: seq<seq<Listed>>, l: seq<Listed>)
    requires ls != []
    ensures NoCollision(digest, ls + [l]) <==> NoCollision(digest, ls) && !Collide(digest, Last(ls), l)
  {
    var more := ls + [l];
    assert forall i :: 0 <= i < |ls| ==> more[i] == ls[i];
    assert more[|ls|] == l;
    if NoCollision(digest, more) {
      assert !Collide(digest, more[|ls| - 1], more[|ls|]);
      forall i | 0 < i < |ls| ensures !Collide(digest, ls[i - 1], ls[i]) {
        assert !Collide(digest, more[i - 1], more[i]);
      }
    }
  }
}
