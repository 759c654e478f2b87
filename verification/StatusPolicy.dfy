/** Stored student status names and what they stand for (app/status_policy.py). */
module StatusPolicy {

  datatype Canonical = NotContacted | Contacted | NotReached | PendingVisit | Enrolled | Invalid | Unmapped

  /** The canonical workflow status of a stored name, by the table of app/status_policy.py. */
  function CanonicalStatus(name: string): Canonical {
    if name in {"new_lead", "not_contacted", "unassigned"} then NotContacted
    else if name in {"contacted", "very_interested"} then Contacted
    else if name in {"not_reached", "rejected"} then NotReached
    else if name in {"pending_visit", "interested_add_wechat", "waiting_volunteer"} then PendingVisit
    else if name == "enrolled" then Enrolled
    else if name in {"invalid", "completed", "expired", "high_score", "not_interested", "no_intent",
                     "child_not_want_study", "child_not_interested"} then Invalid
    else Unmapped
  }

  /** The stored name of a display value, as the enum declares them. */
  function NameOfValue(text: string): string {
    if text == "新线索" then "new_lead"
    else if text == "未联系" then "not_contacted"
    else if text == "已联系" then "contacted"
    else if text == "待回访" then "pending_visit"
    else if text == "已完成" then "completed"
    else if text == "无效" then "invalid"
    else if text == "已报名" then "enrolled"
    else if text == "拒绝接听" then "rejected"
    else if text == "已过期" then "expired"
    else if text == "非常有意向" then "very_interested"
    else if text == "意向了解加微" then "interested_add_wechat"
    else if text == "等待志愿" then "waiting_volunteer"
    else if text == "未接" then "not_reached"
    else if text == "高分段" then "high_score"
    else if text == "无意向" then "not_interested"
    else if text == "孩子不想读" then "child_not_want_study"
    else ""
  }

  /** The canonical status of any text: a stored name, or else a display value. */
  function CanonicalOfText(text: string): Canonical {
    if CanonicalStatus(text) != Unmapped then CanonicalStatus(text) else CanonicalStatus(NameOfValue(text))
  }

  /** The list both data migrations froze: stored names that mean enrolled or invalid. */
  const FROZEN_TERMINAL_STATUSES: set<string> :=
    {"enrolled", "invalid", "completed", "expired", "high_score", "not_interested", "no_intent",
     "child_not_want_study", "child_not_interested"}

  predicate TerminalStatus(name: string) {
    CanonicalStatus(name) in {Enrolled, Invalid}
  }

  /** The frozen list is exactly the preimage of the two terminal statuses of the live policy. */
  lemma FrozenListIsThePolicy(name: string)
    ensures name in FROZEN_TERMINAL_STATUSES <==> TerminalStatus(name)
  {
  }
}
