/** The cost side of the `Billing` worker: the charge derived from a job's
    PostScript, and the spool reads the worker makes for each job. */
module Billing {
  import opened Jobs
  import PSParser

  /** `Billing.computeCost` as intended: one unit per page, or one unit per
      sheet, two pages to a sheet and rounded up, when the job is duplex.
      The code writes `ceiling(cost / 2)`, but no `ceiling` is defined or
      imported, and `cost / 2` is already floor division under Python 2;
      `ComputeCostAsWritten` keeps what the code actually does. */
  function ComputeCost(ps: string): (cost: nat)
    ensures !PSParser.IsDuplex(ps) ==> cost == PSParser.PageCount(ps)
    ensures PSParser.IsDuplex(ps) ==>
      PSParser.PageCount(ps) <= 2 * cost <= PSParser.PageCount(ps) + 1
    ensures cost <= PSParser.PageCount(ps)
  {
    var pages := PSParser.PageCount(ps);
    if PSParser.IsDuplex(ps) then (pages + 1) / 2 else pages
  }

  /** `Billing.computeCost` as the code stands: a non-duplex job costs its
      page count, and every duplex job raises a NameError on `ceiling`. */
  function ComputeCostAsWritten(ps: string): (r: Result<nat>)
    ensures r.Err? <==> PSParser.IsDuplex(ps)
    ensures r.Err? ==> r.failure == UndefinedName("ceiling")
    ensures r.Ok? ==> r.value == ComputeCost(ps)
  {
    if PSParser.IsDuplex(ps) then Err(UndefinedName("ceiling"))
    else Ok(PSParser.PageCount(ps))
  }

  /** `Billing.computeCost(jid)` with the corrected cost: the cost of the
      spooled job `jid`; reading a spool file that does not exist raises
      before anything is counted. */
  function CostOf(spool: map<string, Job>, jid: string): (r: Result<nat>)
    ensures r.Err? <==> jid !in spool
    ensures r.Err? ==> r.failure == NoSpoolFile(jid)
    ensures r.Ok? ==> r.value == ComputeCost(spool[jid].postscript)
  {
    if jid in spool then Ok(ComputeCost(spool[jid].postscript)) else Err(NoSpoolFile(jid))
  }

  /** `Billing.getUser(jid)`: the user who submitted the spooled job `jid`. */
  function GetUser(spool: map<string, Job>, jid: string): (r: Result<string>)
    ensures r.Err? <==> jid !in spool
    ensures r.Err? ==> r.failure == NoSpoolFile(jid)
    ensures r.Ok? ==> r.value == spool[jid].originUser
  {
    if jid in spool then Ok(spool[jid].originUser) else Err(NoSpoolFile(jid))
  }

  /** The payload of the end-to-end example job: three pages, duplex. */
  const ExamplePayload: string := "%%Page: 1\n/Duplex true\n%%Page: 2\n%%Page: 3\n"

  /** Greedy counting over a payload laid out as the example is: markers at
      0, 23 and 33, and no character that could start one in between. */
  lemma {:induction false} ThreeMarkerLayout(s: string, m: string)
    requires |m| == 7 && |s| == 43
    requires s[..7] == m && s[23..30] == m && s[33..40] == m
    requires m[0] !in s[7..23] && m[0] !in s[30..33]
    ensures PSParser.Count(s, m) == 3
  {
    assert PSParser.Count(s, m) == 1 + PSParser.Count(s[7..], m);
    assert s[7..][..16] == s[7..23];
    PSParser.CountSkip(s[7..], m, 16);
    assert s[7..][16..] == s[23..];
    assert s[23..][..7] == m;
    assert PSParser.Count(s[23..], m) == 1 + PSParser.Count(s[30..], m);
    assert s[30..][..3] == s[30..33];
    PSParser.CountSkip(s[30..], m, 3);
    assert s[30..][3..] == s[33..];
    assert s[33..][..7] == m;
    assert PSParser.Count(s[33..], m) == 1 + PSParser.Count(s[40..], m);
    assert |s[40..]| < |m|;
  }

  lemma ExamplePageCount(s: string)
    requires s == ExamplePayload
    ensures PSParser.PageCount(s) == 3
  {
    var m := PSParser.PageMarker;
    assert forall i :: 0 <= i < 7 ==> s[i] == m[i];
    assert s[23..30] == m;
    assert s[33..40] == m;
    assert forall i :: 7 <= i < 23 || 30 <= i < 33 ==> s[i] != m[0];
    assert forall j :: 0 <= j < 16 ==> s[7..23][j] == s[7 + j];
    assert forall j :: 0 <= j < 3 ==> s[30..33][j] == s[30 + j];
    ThreeMarkerLayout(s, m);
  }

  lemma ExampleIsDuplex(s: string)
    requires s == ExamplePayload
    ensures PSParser.IsDuplex(s)
  {
    var d := PSParser.DuplexMarker;
    assert forall i :: 0 <= i < 12 ==> s[10..22][i] == s[10 + i] == d[i];
    assert PSParser.OccursAt(s, d, 10);
  }

  /** Three duplex pages cost two sheets. */
  lemma ExamplePayloadCost()
    ensures PSParser.PageCount(ExamplePayload) == 3
    ensures PSParser.IsDuplex(ExamplePayload)
    ensures ComputeCost(ExamplePayload) == 2
  {
    ExamplePageCount(ExamplePayload);
    ExampleIsDuplex(ExamplePayload);
  }

  /** The code as written cannot bill the example job: the duplex branch
      calls the undefined `ceiling`, where two units were intended. */
  lemma CeilingUndefinedOnExample()
    ensures ComputeCostAsWritten(ExamplePayload) == Err(UndefinedName("ceiling"))
    ensures ComputeCost(ExamplePayload) == 2
  {
    ExamplePayloadCost();
  }
}
