/** The run of the tool: parse the ordering, open the TPM, identify it,
    measure it, then sort and lay out the estimate table. */
module Cli {
  import opened Common
  import opened SortKey
  import opened HashTimer
  import opened Throughput
  import opened Catalog
  import opened Identity

  /** What a successful run produces. The regression that turns `averages`
      into hashes per second lies outside the model. */
  datatype Report = Report(info: TpmInfo, averages: seq<real>, rows: seq<EstimateRow>)

  /** mainErr: an unknown `sort_by` value is reported before the TPM is
      opened, so no device is asked anything and the catalog is untouched.
      Identity reads come before any hash call, the first failing read or
      sample ends the run with its error wrapped, and the catalog is sorted
      only once everything else has succeeded. `tpmOpens` is whether the transport
      could be opened; `identityReads` and `hashCalls` count the requests made
      of the device. */
  method Run(sortBy: string, tpmOpens: bool, query: Property -> CapResponse, device: Device, catalog: array<Scheme>)
    returns (r: Result<Report>, identityReads: nat, hashCalls: nat)
    modifies catalog
    ensures r.Ok? <==>
      ParseSortBy(sortBy).Ok? && tpmOpens && AllReadable(query) && SucceededUpTo(device, CallCount)
    ensures ParseSortBy(sortBy).Err? ==>
      r == Err(UnknownSortBy(sortBy)) && identityReads == 0 && hashCalls == 0
    ensures ParseSortBy(sortBy).Ok? && !tpmOpens ==>
      r == Err(CouldNotOpenTpm) && identityReads == 0 && hashCalls == 0
    ensures ParseSortBy(sortBy).Ok? && tpmOpens && !AllReadable(query) ==>
      0 < identityReads <= |ReadOrder| &&
      (forall i | 0 <= i < identityReads - 1 :: Read(query, ReadOrder[i]).Ok?) &&
      Read(query, ReadOrder[identityReads - 1]).Err? &&
      r == Err(TpmInfoFailed(Read(query, ReadOrder[identityReads - 1]).error))
    ensures ParseSortBy(sortBy).Ok? && tpmOpens && AllReadable(query) && !SucceededUpTo(device, CallCount) ==>
      r == Err(PerformanceFailed(HashFailed))
    ensures ParseSortBy(sortBy).Ok? && tpmOpens && AllReadable(query) && !SucceededUpTo(device, CallCount) ==>
      0 < hashCalls <= CallCount && SucceededUpTo(device, hashCalls - 1) && !Sample(device, hashCalls - 1).Ok?
    ensures hashCalls > 0 ==> AllReadable(query) && identityReads == |ReadOrder|
    ensures r.Err? ==> catalog[..] == old(catalog[..])
    ensures r.Ok? ==> identityReads == |ReadOrder| && hashCalls == CallCount
    ensures r.Ok? ==> r.value.info == InfoOf(query) && |r.value.averages| == SizeCount
    ensures r.Ok? ==> forall n | 0 <= n < SizeCount :: r.value.averages[n] == Mean(device, n)
    ensures r.Ok? ==> Sorted(ParseSortBy(sortBy).value, catalog[..]) && multiset(catalog[..]) == multiset(old(catalog[..]))
    ensures r.Ok? ==> |r.value.rows| == catalog.Length
    ensures r.Ok? ==> forall i | 0 <= i < catalog.Length :: r.value.rows[i] == RowOf(catalog[i])
  {
    identityReads, hashCalls := 0, 0;
    var ordering := ParseSortBy(sortBy);
    if ordering.Err? {
      return Err(ordering.error), identityReads, hashCalls;
    }
    if !tpmOpens {
      return Err(CouldNotOpenTpm), identityReads, hashCalls;
    }
    var info, asked := GetTpmInfo(query);
    identityReads := asked;
    if info.Err? {
      return Err(TpmInfoFailed(info.error)), identityReads, hashCalls;
    }
    var hps, visited, progress := GetHashPerformance(device);
    hashCalls := |visited|;
    if hps.Err? {
      return Err(PerformanceFailed(hps.error)), identityReads, hashCalls;
    }
    var rows := PrintEstimates(catalog, ordering.value);
    r := Ok(Report(info.value, hps.value, rows));
  }
}
