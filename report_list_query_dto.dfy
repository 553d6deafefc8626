/** The query of "list maintenance reports"
    (maintenance-reports/dto/list-maintenance-reports.query.ts). `skip` and
    `take` are taken as already converted to non-negative numbers. */
module ReportListQueryDto {
  import opened Common
  import opened Store

  datatype ReportQuery = ReportQuery(
    assetId: Option<Id>, siteId: Option<Id>, customerId: Option<Id>,
    templateId: Option<Id>, state: Option<ReportState>,
    skip: Option<nat>, take: Option<nat>)

  /** `skip` has no bound beyond being non-negative; `take`, when given, is at
      least 1 and has no upper bound. */
  predicate ValidQuery(q: ReportQuery) {
    q.take.None? || q.take.value >= 1
  }
}
