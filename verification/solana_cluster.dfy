/**
 * The cluster helpers of the wallet header: a label, a badge variant, a status dot colour and an
 * explorer query for a Solana cluster id, each by the first substring of the id it recognises.
 */
module SolanaCluster {
  import opened Wrappers
  import opened Strings

  /** A cluster as the wallet reports it (`name` is its `label`); a missing or null field is `None`. */
  datatype ClusterLike = ClusterLike(id: Option<string>, name: Option<string>, url: Option<string>)

  /** A truthy string: present and not empty. */
  predicate Truthy(s: Option<string>) {
    s.Some? && s.value != ""
  }

  /** `CLUSTER_LABELS`: the preferred ids and the legacy ones. */
  const ClusterLabels: map<string, string> := map[
    "solana:mainnet" := "Mainnet", "solana:devnet" := "Devnet",
    "solana:testnet" := "Testnet", "solana:localnet" := "Localnet",
    "mainnet-beta" := "Mainnet", "devnet" := "Devnet",
    "testnet" := "Testnet", "localnet" := "Localnet"
  ]

  /**
   * `getSolanaClusterLabel`: "Unknown" without a cluster; otherwise the label of a known id, then
   * the cluster's own label, then its id, then "Unknown".
   */
  function ClusterLabel(cluster: Option<ClusterLike>): (text: string)
    ensures cluster.None? ==> text == "Unknown"
    ensures cluster.Some? && Truthy(cluster.value.id) && cluster.value.id.value in ClusterLabels ==>
      text == ClusterLabels[cluster.value.id.value]
    ensures cluster.Some? && !(Truthy(cluster.value.id) && cluster.value.id.value in ClusterLabels) ==>
      text == (if Truthy(cluster.value.name) then cluster.value.name.value
                else if Truthy(cluster.value.id) then cluster.value.id.value
                else "Unknown")
    ensures text != ""
  {
    if cluster.None? then "Unknown"
    else
      var c := cluster.value;
      if Truthy(c.id) && c.id.value in ClusterLabels && ClusterLabels[c.id.value] != "" then ClusterLabels[c.id.value]
      else if Truthy(c.name) then c.name.value
      else if Truthy(c.id) then c.id.value
      else "Unknown"
  }

  /** The mainnet ids, preferred and legacy, both read "Mainnet"; every known id has a label of its own. */
  lemma MainnetLabels()
    ensures ClusterLabel(Some(ClusterLike(Some("solana:mainnet"), None, None))) == "Mainnet"
    ensures ClusterLabel(Some(ClusterLike(Some("mainnet-beta"), Some("Beta"), None))) == "Mainnet"
    ensures ClusterLabel(Some(ClusterLike(Some("custom"), None, None))) == "custom"
    ensures ClusterLabel(Some(ClusterLike(Some(""), None, None))) == "Unknown"
  {
    assert "custom" !in ClusterLabels;
  }

  /** `isSolanaDevnetCluster`: false without an id, otherwise whether the id contains "devnet". */
  function IsDevnet(clusterId: Option<string>): (b: bool)
    ensures b <==> Truthy(clusterId) && exists i :: OccursAt(clusterId.value, "devnet", i)
  {
    if !Truthy(clusterId) then false
    else
      ContainsIff(clusterId.value, "devnet");
      Contains(clusterId.value, "devnet")
  }

  datatype BadgeVariant = Default | Secondary | Destructive | Outline

  /** `getSolanaBadgeVariant`: mainnet, then devnet, then localnet, otherwise outline. */
  function BadgeVariantOf(clusterId: Option<string>): (v: BadgeVariant)
    ensures v == Default <==> Truthy(clusterId) && Contains(clusterId.value, "mainnet")
    ensures v == Secondary <==> Truthy(clusterId) && !Contains(clusterId.value, "mainnet") && Contains(clusterId.value, "devnet")
    ensures v == Destructive <==>
      Truthy(clusterId) && !Contains(clusterId.value, "mainnet") && !Contains(clusterId.value, "devnet") &&
      Contains(clusterId.value, "localnet")
  {
    if !Truthy(clusterId) then Outline
    else if Contains(clusterId.value, "mainnet") then Default
    else if Contains(clusterId.value, "devnet") then Secondary
    else if Contains(clusterId.value, "localnet") then Destructive
    else Outline
  }

  /** `getSolanaClusterDotClassName`: mainnet, devnet, testnet, localnet, and emerald otherwise. */
  function DotClassName(clusterId: Option<string>): (cls: string)
    ensures cls == "bg-emerald-500" <==>
      !Truthy(clusterId) ||
      (!Contains(clusterId.value, "mainnet") && !Contains(clusterId.value, "devnet") &&
       !Contains(clusterId.value, "testnet") && !Contains(clusterId.value, "localnet"))
    ensures Truthy(clusterId) && Contains(clusterId.value, "mainnet") ==> cls == "bg-green-500"
    ensures cls == "bg-blue-500" ==> IsDevnet(clusterId)
  {
    if !Truthy(clusterId) then "bg-emerald-500"
    else if Contains(clusterId.value, "mainnet") then "bg-green-500"
    else if Contains(clusterId.value, "devnet") then "bg-blue-500"
    else if Contains(clusterId.value, "testnet") then "bg-yellow-500"
    else if Contains(clusterId.value, "localnet") then "bg-red-500"
    else "bg-emerald-500"
  }

  /** `getSolanaExplorerClusterQuery`: devnet first, then testnet, and nothing otherwise. */
  function ExplorerClusterQuery(clusterId: Option<string>): (q: string)
    ensures q == "?cluster=devnet" <==> IsDevnet(clusterId)
    ensures q == "?cluster=testnet" <==> Truthy(clusterId) && !IsDevnet(clusterId) && Contains(clusterId.value, "testnet")
    ensures q == "" <==> !Truthy(clusterId) || (!IsDevnet(clusterId) && !Contains(clusterId.value, "testnet"))
  {
    if !Truthy(clusterId) then ""
    else if Contains(clusterId.value, "devnet") then "?cluster=devnet"
    else if Contains(clusterId.value, "testnet") then "?cluster=testnet"
    else ""
  }

  /** The devnet ids are devnet everywhere: a secondary badge, a blue dot and the devnet explorer. */
  lemma DevnetAgrees(clusterId: Option<string>)
    requires IsDevnet(clusterId) && !Contains(clusterId.value, "mainnet")
    ensures BadgeVariantOf(clusterId) == Secondary
    ensures DotClassName(clusterId) == "bg-blue-500"
    ensures ExplorerClusterQuery(clusterId) == "?cluster=devnet"
  {
  }

  /**
   * The testnet ids that name no earlier network: the plain outline badge, the yellow dot and the
   * testnet explorer.
   */
  lemma TestnetAgrees(clusterId: Option<string>)
    requires Truthy(clusterId) && Contains(clusterId.value, "testnet")
    requires !Contains(clusterId.value, "mainnet") && !Contains(clusterId.value, "devnet") && !Contains(clusterId.value, "localnet")
    ensures BadgeVariantOf(clusterId) == Outline
    ensures DotClassName(clusterId) == "bg-yellow-500"
    ensures ExplorerClusterQuery(clusterId) == "?cluster=testnet"
  {
  }

  /**
   * The localnet ids that name no other network: the destructive badge, the red dot and no
   * explorer cluster query.
   */
  lemma LocalnetAgrees(clusterId: Option<string>)
    requires Truthy(clusterId) && Contains(clusterId.value, "localnet")
    requires !Contains(clusterId.value, "mainnet") && !Contains(clusterId.value, "devnet") && !Contains(clusterId.value, "testnet")
    ensures BadgeVariantOf(clusterId) == Destructive
    ensures DotClassName(clusterId) == "bg-red-500"
    ensures ExplorerClusterQuery(clusterId) == ""
  {
  }

  /** The preferred ids are recognised by their network names. */
  lemma PreferredIds()
    ensures IsDevnet(Some("solana:devnet")) && IsDevnet(Some("devnet"))
    ensures BadgeVariantOf(Some("solana:mainnet")) == Default
    ensures DotClassName(Some("solana:mainnet")) == "bg-green-500"
  {
    assert OccursAt("solana:devnet", "devnet", 7);
    assert OccursAt("devnet", "devnet", 0);
    assert OccursAt("solana:mainnet", "mainnet", 7);
    ContainsIff("solana:mainnet", "mainnet");
  }
}
