/** Arm statuses and the classification of a URL (control-plane/comparison/classify.mjs). */
module Classification {
  import opened Common

  /** The `ok` field of a result: a worker may leave it out, and the supervisor then sends null. */
  datatype Ok = True | False | Null | Undefined

  datatype NodeType = AzureDirect | GsaRemotenet | GsaClient | CloudflareClient | ExternalDirect

  datatype ArmStatus = ArmOk | ArmFail | ArmMixed | ArmUnavailable

  datatype Class =
    | Healthy
    | LikelyGsaImpacting
    | LikelyCloudflareImpacting
    | AzureDirectEnvironmentIssue
    | AzureEgressOrRegionIssue
    | CommonDestinationOrSiteIssue
    | NodeGroupDisagreement
    | Inconclusive
    | Pending

  /** One status per network arm; a caller may leave an arm out. */
  datatype Arms = Arms(
    azureDirect: Option<ArmStatus>,
    gsaRemotenet: Option<ArmStatus>,
    gsaClient: Option<ArmStatus>,
    cloudflareClient: Option<ArmStatus>,
    externalDirect: Option<ArmStatus>)

  /** The combined arms the decision was made on, as kept in a comparison. */
  datatype Decision = Decision(azure: ArmStatus, gsa: ArmStatus, cf: ArmStatus, ext: ArmStatus)

  /** Confidence is counted in tenths: 9 stands for 0.9. */
  datatype Verdict = Verdict(class_: Class, confidence: nat, arms: Decision)

  function CountOk(results: seq<Ok>, p: Ok -> bool): (n: nat)
    ensures n <= |results|
  {
    |Filter(results, p)|
  }

  /** Aggregate the per-node results of one arm. */
  function ArmStatusOf(results: seq<Ok>): ArmStatus {
    var usable := Filter(results, (r: Ok) => r != Undefined);
    if usable == [] then ArmUnavailable
    else
      var oks := CountOk(usable, (r: Ok) => r == True);
      if oks == |usable| then ArmOk
      else if oks == 0 then ArmFail
      else ArmMixed
  }

  lemma AllOrSome(results: seq<Ok>, p: Ok -> bool)
    ensures |Filter(results, p)| == |results| <==> forall r :: r in results ==> p(r)
    ensures |Filter(results, p)| == 0 <==> forall r :: r in results ==> !p(r)
  {
    FilterMembers(results, p);
    if r :| r in results && !p(r) {
      FilterDrops(results, p, r);
    } else {
      FilterAll(results, p);
    }
    if |Filter(results, p)| != 0 {
      assert Filter(results, p)[0] in Filter(results, p);
    }
  }

  /** What each arm status says about the results behind it. */
  lemma ArmStatusMeaning(results: seq<Ok>)
    ensures ArmStatusOf(results) == ArmUnavailable <==> forall r :: r in results ==> r == Undefined
    ensures ArmStatusOf(results) == ArmOk <==> True in results && False !in results && Null !in results
    ensures ArmStatusOf(results) == ArmFail <==> True !in results && (False in results || Null in results)
    ensures ArmStatusOf(results) == ArmMixed <==> True in results && (False in results || Null in results)
  {
    var usable := Filter(results, (r: Ok) => r != Undefined);
    FilterMembers(results, (r: Ok) => r != Undefined);
    AllOrSome(usable, (r: Ok) => r == True);
    assert forall r :: r in usable <==> r in results && r != Undefined;
    if usable == [] {
      assert forall r :: r in results ==> r !in usable;
    } else {
      assert usable[0] in usable;
    }
  }

  function Present(arms: seq<Option<ArmStatus>>): seq<Option<ArmStatus>> {
    Filter(arms, (a: Option<ArmStatus>) => a.Some?)
  }

  /** Combine the two GSA arms into one status for the decision. */
  function CombineGsa(remotenet: Option<ArmStatus>, client: Option<ArmStatus>): ArmStatus {
    var arms := Present([remotenet, client]);
    if arms == [] then ArmUnavailable
    else if Some(ArmMixed) in arms then ArmMixed
    else if Some(ArmOk) in arms && Some(ArmFail) in arms then ArmMixed
    else if Some(ArmOk) in arms then ArmOk
    else if Some(ArmFail) in arms then ArmFail
    else ArmUnavailable
  }

  /** The combined status in closed form: disagreement wins, then ok, then fail. */
  lemma CombineGsaMeaning(r: Option<ArmStatus>, c: Option<ArmStatus>)
    ensures CombineGsa(r, c) == CombineGsa(c, r)
    ensures CombineGsa(r, c) == ArmMixed
       <==> (Some(ArmMixed) in {r, c} || (Some(ArmOk) in {r, c} && Some(ArmFail) in {r, c}))
    ensures CombineGsa(r, c) == ArmOk <==> Some(ArmOk) in {r, c} && Some(ArmFail) !in {r, c} && Some(ArmMixed) !in {r, c}
    ensures CombineGsa(r, c) == ArmFail <==> Some(ArmFail) in {r, c} && Some(ArmOk) !in {r, c} && Some(ArmMixed) !in {r, c}
  {
    PresentPair(r, c);
    PresentPair(c, r);
  }

  lemma PresentPair(r: Option<ArmStatus>, c: Option<ArmStatus>)
    ensures forall a :: a in Present([r, c]) <==> a.Some? && a in {r, c}
  {
    FilterMembers([r, c], (a: Option<ArmStatus>) => a.Some?);
  }

  function OrUnavailable(a: Option<ArmStatus>): ArmStatus {
    match a
    case Some(s) => s
    case None => ArmUnavailable
  }

  function Classify(arms: Arms): Verdict {
    var azure := OrUnavailable(arms.azureDirect);
    var gsa := CombineGsa(arms.gsaRemotenet, arms.gsaClient);
    var cf := OrUnavailable(arms.cloudflareClient);
    var ext := OrUnavailable(arms.externalDirect);
    var d := Decision(azure, gsa, cf, ext);
    if gsa == ArmMixed then Verdict(NodeGroupDisagreement, 5, d)
    else if azure == ArmOk && gsa == ArmOk then
      if cf == ArmFail then Verdict(LikelyCloudflareImpacting, 7, d) else Verdict(Healthy, 9, d)
    else if azure == ArmOk && gsa == ArmFail then Verdict(LikelyGsaImpacting, 8, d)
    else if azure == ArmFail && (gsa == ArmOk || cf == ArmOk) then Verdict(AzureDirectEnvironmentIssue, 7, d)
    else if azure == ArmFail && gsa == ArmFail && ext == ArmOk then Verdict(AzureEgressOrRegionIssue, 7, d)
    else if azure == ArmFail && gsa == ArmFail then Verdict(CommonDestinationOrSiteIssue, 6, d)
    else Verdict(Inconclusive, 3, d)
  }

  // ---- what each class says about the answers ----

  /** The answers behind a decision, for the four sides it compares: both GSA arms count as one. */
  datatype Evidence = Evidence(azure: set<Ok>, gsa: set<Ok>, cloudflare: set<Ok>, external: set<Ok>)

  predicate AnyBad(side: set<Ok>) {
    False in side || Null in side
  }

  predicate AllGood(side: set<Ok>) {
    True in side && !AnyBad(side)
  }

  predicate AllBad(side: set<Ok>) {
    True !in side && AnyBad(side)
  }

  predicate Divided(side: set<Ok>) {
    True in side && AnyBad(side)
  }

  predicate Silent(side: set<Ok>) {
    side <= {Undefined}
  }

  /** What a kept arm status says about its side. */
  predicate Shows(status: ArmStatus, side: set<Ok>) {
    match status
    case ArmOk => AllGood(side)
    case ArmFail => AllBad(side)
    case ArmMixed => Divided(side)
    case ArmUnavailable => Silent(side)
  }

  /** When a class is called for: each case on its own, whatever the order the code tries them in. */
  predicate CalledFor(c: Class, e: Evidence) {
    match c
    case NodeGroupDisagreement => Divided(e.gsa)
    case Healthy => AllGood(e.azure) && AllGood(e.gsa) && !AllBad(e.cloudflare)
    case LikelyCloudflareImpacting => AllGood(e.azure) && AllGood(e.gsa) && AllBad(e.cloudflare)
    case LikelyGsaImpacting => AllGood(e.azure) && AllBad(e.gsa)
    case AzureDirectEnvironmentIssue =>
      AllBad(e.azure) && (AllGood(e.gsa) || (AllGood(e.cloudflare) && !Divided(e.gsa)))
    case AzureEgressOrRegionIssue =>
      AllBad(e.azure) && AllBad(e.gsa) && !AllGood(e.cloudflare) && AllGood(e.external)
    case CommonDestinationOrSiteIssue =>
      AllBad(e.azure) && AllBad(e.gsa) && !AllGood(e.cloudflare) && !AllGood(e.external)
    case Inconclusive =>
      || (Silent(e.gsa) && !(AllBad(e.azure) && AllGood(e.cloudflare)))
      || (!Silent(e.gsa) && !Divided(e.gsa) && (Silent(e.azure) || Divided(e.azure)))
    case Pending => false
  }

  /** Confidence in each class, in tenths. */
  function ConfidenceIn(c: Class): nat {
    match c
    case Healthy => 9
    case LikelyGsaImpacting => 8
    case LikelyCloudflareImpacting | AzureDirectEnvironmentIssue | AzureEgressOrRegionIssue => 7
    case CommonDestinationOrSiteIssue => 6
    case NodeGroupDisagreement => 5
    case Inconclusive => 3
    case Pending => 0
  }

  function Seen(results: seq<Ok>): set<Ok> {
    set r | r in results
  }

  /** Both GSA arms combine to what their results, taken together, would add up to. */
  lemma GsaIsOneArm(remotenet: seq<Ok>, client: seq<Ok>)
    ensures CombineGsa(Some(ArmStatusOf(remotenet)), Some(ArmStatusOf(client))) == ArmStatusOf(remotenet + client)
  {
    ArmStatusMeaning(remotenet);
    ArmStatusMeaning(client);
    ArmStatusMeaning(remotenet + client);
    CombineGsaMeaning(Some(ArmStatusOf(remotenet)), Some(ArmStatusOf(client)));
    assert forall r :: r in remotenet + client <==> r in remotenet || r in client;
  }

  lemma StatusBySeen(results: seq<Ok>)
    ensures Shows(ArmStatusOf(results), Seen(results))
  {
    ArmStatusMeaning(results);
    assert forall r :: r in Seen(results) <==> r in results;
  }

  /** The verdict on a URL says of the answers behind it what its class, confidence and four statuses stand for. */
  predicate Tells(v: Verdict, e: Evidence) {
    && (forall c :: v.class_ == c <==> CalledFor(c, e)) && v.confidence == ConfidenceIn(v.class_)
    && Shows(v.arms.azure, e.azure) && Shows(v.arms.gsa, e.gsa)
    && Shows(v.arms.cf, e.cloudflare) && Shows(v.arms.ext, e.external)
  }

  ghost predicate ArmsShow(arms: Arms, e: Evidence) {
    && Shows(OrUnavailable(arms.azureDirect), e.azure) && Shows(CombineGsa(arms.gsaRemotenet, arms.gsaClient), e.gsa)
    && Shows(OrUnavailable(arms.cloudflareClient), e.cloudflare) && Shows(OrUnavailable(arms.externalDirect), e.external)
  }

  lemma StatusesCallFor(arms: Arms, e: Evidence, c: Class)
    requires ArmsShow(arms, e)
    ensures Classify(arms).class_ == c <==> CalledFor(c, e)
  {
  }

  lemma StatusesTell(arms: Arms, e: Evidence)
    requires ArmsShow(arms, e)
    ensures Tells(Classify(arms), e)
  {
    forall c ensures Classify(arms).class_ == c <==> CalledFor(c, e) {
      StatusesCallFor(arms, e, c);
    }
  }

  /** The class of a URL, its confidence and the four statuses kept with it, read off the results of the five arms. */
  lemma ClassifyMeans(azure: seq<Ok>, remotenet: seq<Ok>, client: seq<Ok>, cf: seq<Ok>, ext: seq<Ok>)
    ensures Tells(Classify(Arms(Some(ArmStatusOf(azure)), Some(ArmStatusOf(remotenet)), Some(ArmStatusOf(client)),
                                Some(ArmStatusOf(cf)), Some(ArmStatusOf(ext)))),
                  Evidence(Seen(azure), Seen(remotenet + client), Seen(cf), Seen(ext)))
  {
    var arms := Arms(Some(ArmStatusOf(azure)), Some(ArmStatusOf(remotenet)), Some(ArmStatusOf(client)),
                     Some(ArmStatusOf(cf)), Some(ArmStatusOf(ext)));
    var e := Evidence(Seen(azure), Seen(remotenet + client), Seen(cf), Seen(ext));
    GsaIsOneArm(remotenet, client);
    StatusBySeen(azure);
    StatusBySeen(remotenet + client);
    StatusBySeen(cf);
    StatusBySeen(ext);
    StatusesTell(arms, e);
  }

  /** An arm that is left out counts like an arm without results. */
  lemma LeftOutIsUnavailable(arms: Arms)
    ensures var none := Some(ArmStatusOf([]));
      Classify(arms) == Classify(Arms(
        if arms.azureDirect.Some? then arms.azureDirect else none,
        if arms.gsaRemotenet.Some? then arms.gsaRemotenet else none,
        if arms.gsaClient.Some? then arms.gsaClient else none,
        if arms.cloudflareClient.Some? then arms.cloudflareClient else none,
        if arms.externalDirect.Some? then arms.externalDirect else none))
  {
    ArmStatusMeaning([]);
    var r, c := arms.gsaRemotenet, arms.gsaClient;
    var r', c' := if r.Some? then r else Some(ArmUnavailable), if c.Some? then c else Some(ArmUnavailable);
    CombineGsaMeaning(r, c);
    CombineGsaMeaning(r', c');
  }

  /** A URL is never called healthy with a failed result on the Azure or GSA arms, nor without a good one on each side. */
  lemma HealthyMeans(azure: seq<Ok>, remotenet: seq<Ok>, client: seq<Ok>, cf: Option<ArmStatus>, ext: Option<ArmStatus>)
    ensures
      var arms := Arms(Some(ArmStatusOf(azure)), Some(ArmStatusOf(remotenet)), Some(ArmStatusOf(client)), cf, ext);
      var evidence := azure + remotenet + client;
      Classify(arms).class_ == Healthy <==>
        && False !in evidence && Null !in evidence
        && True in azure && (True in remotenet || True in client)
        && cf != Some(ArmFail)
  {
    ArmStatusMeaning(azure);
    ArmStatusMeaning(remotenet);
    ArmStatusMeaning(client);
    CombineGsaMeaning(Some(ArmStatusOf(remotenet)), Some(ArmStatusOf(client)));
  }
}
