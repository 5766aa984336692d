/** The actor and invitation counts on a company's dashboard. */
module NodeStats {

  type Node = nat

  datatype NodeType = Company | Farm | Verifier | Unknown

  datatype Actor = Actor(kind: NodeType, hasJoined: bool)

  datatype Invitation = Invitation(inviter: Node, invitee: Node, emailSent: bool)

  /** What the counts are taken from: the actors, the two chains, and the company itself. */
  datatype Network = Network(
    actors: map<Node, Actor>,
    suppliers: set<Node>,
    buyers: set<Node>,
    self: Node,
    invitations: seq<Invitation>)
  {
    predicate Valid() {
      suppliers <= actors.Keys && buyers <= actors.Keys && self in actors
    }

    predicate IsCompany(n: Node) {
      n in actors && actors[n].kind.Company?
    }

    predicate IsFarm(n: Node) {
      n in actors && actors[n].kind.Farm?
    }

    predicate HasJoined(n: Node) {
      n in actors && actors[n].hasJoined
    }

    predicate InChain(n: Node) {
      IsCompany(n) && (n in suppliers || n in buyers)
    }

    /** An invitation between two of the companies, the company itself included. */
    predicate Counts(i: Invitation) {
      (InChain(i.inviter) || i.inviter == self) && (InChain(i.invitee) || i.invitee == self)
    }

    predicate WasInvited(n: Node) {
      exists k :: 0 <= k < |invitations| && Counts(invitations[k]) && invitations[k].invitee == n
    }

    predicate WasSentEmail(n: Node) {
      exists k :: 0 <= k < |invitations| && Counts(invitations[k]) && invitations[k].invitee == n
                  && invitations[k].emailSent
    }

    /** The distinct actors of both chains, the companies and farmers among the suppliers, and
        the distinct companies of both chains. */
    function Chain(): set<Node> {
      suppliers + buyers
    }

    function SupplyCompanies(): set<Node> {
      set n | n in suppliers && IsCompany(n)
    }

    function Farmers(): set<Node> {
      set n | n in suppliers && IsFarm(n)
    }

    function Companies(): set<Node> {
      set n | n in actors && InChain(n)
    }

    /** Invited, but nothing was sent yet. */
    function Mapped(): set<Node> {
      set n | n in actors && InChain(n) && WasInvited(n) && !WasSentEmail(n)
    }

    /** Sent an invitation, but has not joined. */
    function Pending(): set<Node> {
      set n | n in actors && InChain(n) && WasSentEmail(n) && !HasJoined(n)
    }

    /** Joined after an invitation was sent, or signed up without any. */
    function Active(): set<Node> {
      set n | n in actors && InChain(n) && ((WasSentEmail(n) && HasJoined(n)) || !WasInvited(n))
    }

    /** Every company is in exactly one of the three. */
    lemma CompaniesArePartitioned()
      ensures Mapped() + Pending() + Active() == Companies()
      ensures Mapped() !! Pending() && Mapped() !! Active() && Pending() !! Active()
    {
    }

    /** So do their sizes. */
    lemma PartsAddUp()
      ensures |Mapped()| + |Pending()| + |Active()| == |Companies()|
    {
      CompaniesArePartitioned();
      assert |Mapped() + Pending()| == |Mapped()| + |Pending()|;
      assert |(Mapped() + Pending()) + Active()| == |Mapped() + Pending()| + |Active()|;
    }

    /** The two supplier counts add up to the suppliers exactly when each of these is a company or
        a farm: verifiers and unknown actors are in neither count. */
    lemma SuppliersAddUpExactly()
      ensures SupplyCompanies() !! Farmers()
      ensures |SupplyCompanies()| + |Farmers()| <= |suppliers|
      ensures |SupplyCompanies()| + |Farmers()| == |suppliers| <==>
              forall n :: n in suppliers ==> IsCompany(n) || IsFarm(n)
    {
      var both := SupplyCompanies() + Farmers();
      assert |both| == |SupplyCompanies()| + |Farmers()|;
      assert suppliers == both + (suppliers - both);
      assert |suppliers| == |both| + |suppliers - both|;
      if n :| n in suppliers && !(IsCompany(n) || IsFarm(n)) {
        assert n in suppliers - both;
      } else {
        assert suppliers - both == {};
      }
    }

    /** Every actor is counted once: one that both supplies and buys is in both id lists. */
    lemma ChainCountsOnce()
      ensures |Chain()| + |suppliers * buyers| == |suppliers| + |buyers|
      ensures |SupplyCompanies()| + |Farmers()| <= |suppliers| <= |Chain()|
    {
      SuppliersAddUpExactly();
      var others := buyers - suppliers;
      assert Chain() == suppliers + others;
      assert buyers == others + suppliers * buyers;
    }

    /** A company in one of the chains. */
    predicate ChainCompany(n: Node) {
      n in actors && actors[n].kind == Company && (n in suppliers || n in buyers)
    }

    /** An invitation to the company that comes from a company in a chain or the one whose dashboard
        it is; `sent` asks for one that was mailed. */
    ghost predicate InvitedWithin(n: Node, sent: bool) {
      exists i :: && i in invitations && i.invitee == n && (i.inviter == self || ChainCompany(i.inviter))
                  && (sent ==> i.emailSent)
    }

    /** Who counts as mapped, pending and active, in terms of the tables. */
    lemma PartsExactly(n: Node)
      ensures n in Mapped() <==> ChainCompany(n) && InvitedWithin(n, false) && !InvitedWithin(n, true)
      ensures n in Pending() <==> ChainCompany(n) && InvitedWithin(n, true) && !actors[n].hasJoined
      ensures n in Active() <==>
              ChainCompany(n) && (if InvitedWithin(n, true) then actors[n].hasJoined else !InvitedWithin(n, false))
      ensures n in Companies() <==> ChainCompany(n)
      ensures n in SupplyCompanies() <==> n in suppliers && n in actors && actors[n].kind == Company
      ensures n in Farmers() <==> n in suppliers && n in actors && actors[n].kind == Farm
    {
      if ChainCompany(n) {
        assert WasInvited(n) <==> InvitedWithin(n, false) by {
          if InvitedWithin(n, false) {
            var i :| i in invitations && i.invitee == n && (i.inviter == self || ChainCompany(i.inviter));
            var k :| 0 <= k < |invitations| && invitations[k] == i;
            assert Counts(invitations[k]);
          }
        }
        assert WasSentEmail(n) <==> InvitedWithin(n, true) by {
          if InvitedWithin(n, true) {
            var i :| && i in invitations && i.invitee == n && (i.inviter == self || ChainCompany(i.inviter))
                     && i.emailSent;
            var k :| 0 <= k < |invitations| && invitations[k] == i;
            assert Counts(invitations[k]);
          }
        }
      }
    }

    // The results of the three queries over invitations.

    function SignedUp(): set<Node> {
      set n | n in actors && InChain(n) && !WasInvited(n)
    }

    function InvitedActors(): set<Node> {
      set n | n in actors && InChain(n) && WasSentEmail(n)
    }

    function ActiveActors(): set<Node> {
      set n | n in actors && InChain(n) && WasSentEmail(n) && HasJoined(n)
    }

    /** The queries split the parts. */
    lemma QueriesGiveParts()
      ensures |ActiveActors()| + |SignedUp()| == |Active()|
      ensures |InvitedActors()| == |ActiveActors()| + |Pending()|
    {
      assert ActiveActors() + SignedUp() == Active() && ActiveActors() !! SignedUp();
      assert ActiveActors() + Pending() == InvitedActors() && ActiveActors() !! Pending();
    }
  }

  class Stats {
    var actorCount: int
    var supplierCount: int
    var farmerCount: int
    var invitedActorCount: int
    var activeActorCount: int
    var mappedActorCount: int
    var pendingInviteCount: int

    constructor () {}

    /** `update_values`, as far as it counts actors and invitations: the subtractions in it come
        out as the sizes of the three parts. */
    method UpdateValues(net: Network)
      requires net.Valid()
      modifies this
      ensures actorCount == |net.Chain()|
      ensures supplierCount == |net.SupplyCompanies()| && farmerCount == |net.Farmers()|
      ensures mappedActorCount == |net.Mapped()|
      ensures pendingInviteCount == |net.Pending()|
      ensures activeActorCount == |net.Active()|
      ensures actorCount + |net.suppliers * net.buyers| == |net.suppliers| + |net.buyers|
      ensures supplierCount + farmerCount <= |net.suppliers| <= actorCount
      ensures invitedActorCount == activeActorCount + pendingInviteCount
      ensures mappedActorCount + pendingInviteCount + activeActorCount == |net.Companies()|
    {
      CountActors(net);
      CountInvitations(net);
    }

    method CountActors(net: Network)
      modifies this`actorCount, this`supplierCount, this`farmerCount
      ensures actorCount == |net.Chain()|
      ensures supplierCount == |net.SupplyCompanies()| && farmerCount == |net.Farmers()|
      ensures actorCount + |net.suppliers * net.buyers| == |net.suppliers| + |net.buyers|
      ensures supplierCount + farmerCount <= |net.suppliers| <= actorCount
    {
      net.ChainCountsOnce();
      actorCount := |net.Chain()|;
      supplierCount := |net.SupplyCompanies()|;
      farmerCount := |net.Farmers()|;
    }

    method CountInvitations(net: Network)
      modifies this`invitedActorCount, this`activeActorCount, this`mappedActorCount, this`pendingInviteCount
      ensures mappedActorCount == |net.Mapped()|
      ensures pendingInviteCount == |net.Pending()|
      ensures activeActorCount == |net.Active()|
      ensures invitedActorCount == activeActorCount + pendingInviteCount
      ensures mappedActorCount + pendingInviteCount + activeActorCount == |net.Companies()|
    {
      var companies := |net.Companies()|;
      var signedUp := |net.SignedUp()|;
      var invited := |net.InvitedActors()|;
      var active := |net.ActiveActors()|;
      net.QueriesGiveParts();
      net.PartsAddUp();

      invitedActorCount := invited + signedUp;
      activeActorCount := active + signedUp;
      mappedActorCount := companies - invitedActorCount;
      pendingInviteCount := invitedActorCount - activeActorCount;
    }
  }
}
