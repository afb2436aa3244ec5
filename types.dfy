/** The records shared by the feedback store, the user directory and the
    session: roles, the two category enumerations, users and feedback items. */
module Types {
  import opened Js

  /** 'user' | 'manager' | 'admin' */
  datatype UserRole = PlainUser | Manager | Admin

  /** The ten categories of constructive ("consider") feedback. */
  datatype ConsiderCategory =
    | SkillDevelopment
    | Communication
    | TimeManagement
    | QualityOfWork
    | InnovationAndInitiative
    | TeamCollaboration
    | Leadership
    | CustomerCentricity
    | ComplianceAndEthics
    | Adaptability

  /** The eight categories of appreciation ("continue") feedback. */
  datatype ContinueCategory =
    | TeamContributions
    | OutstandingPerformance
    | CreativityAndInnovation
    | LeadershipExcellence
    | CommitmentAndDedication
    | CustomerImpact
    | LearningAndGrowth
    | WorkplaceValues

  /** `ConsiderCategory | ContinueCategory`; the two lists share no name. */
  datatype Category = Consider(considerCategory: ConsiderCategory) | Continue(continueCategory: ContinueCategory)

  datatype User = User(
    id: string,
    name: string,
    email: string,
    role: UserRole,
    managerId: Option<string>,
    teamId: Option<string>,
    avatarUrl: Option<string>)

  datatype Sentiment = Positive | Neutral | Negative

  /** A feedback item. `kind` is the item's `type` field. It is kept as the
      string the item carries because the aggregators compare it against
      tags ('feedback', 'appreciation') other than the two the record type
      declares ('consider', 'continue'). `sentiment` is optional in the
      record; items restored from storage need not carry one. */
  datatype FeedbackItem = FeedbackItem(
    id: string,
    kind: string,
    category: Category,
    senderId: string,
    recipientId: string,
    message: string,
    timestamp: string,
    sentiment: Option<Sentiment>)

  const ConsiderTag: string := "consider"
  const ContinueTag: string := "continue"

  /** The item carries one of the two type tags its record type declares. */
  predicate WellTyped(f: FeedbackItem)
  {
    f.kind == ConsiderTag || f.kind == ContinueTag
  }

  predicate AllWellTyped(log: seq<FeedbackItem>)
  {
    forall f :: f in log ==> WellTyped(f)
  }
}
