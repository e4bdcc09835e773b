/**
 * The records agents exchange (src/agents/models.py). Optional text and list
 * fields of `WeaveResult` are plain strings and sequences: every reader of
 * them tests truthiness, for which `None` and the empty value agree.
 */
module AgentModels {
  import opened Wrappers

  /** A learning activity: `type`, description, minutes and objectives. */
  datatype Activity = Activity(kind: string, description: string, durationMin: int, learningObjectives: seq<string>)

  datatype SlideBullet = SlideBullet(slideNumber: int, bullets: seq<string>)

  /** An assessment item; `maxScore` holds the score as Python prints it. */
  datatype AssessmentItem = AssessmentItem(kind: string, description: string, maxScore: Option<string>)

  /** A reference with its retrieval date and optional licence. */
  datatype Citation = Citation(url: string, title: string, retrievedAt: string, licence: Option<string>)

  datatype WeaveResult = WeaveResult(
    title: string,
    learningObjectives: seq<string>,
    activities: seq<Activity>,
    durationMin: int,
    author: string,
    date: string,
    version: string,
    summary: string,
    tags: seq<string>,
    prerequisites: seq<string>,
    slideBullets: seq<SlideBullet>,
    speakerNotes: string,
    assessment: seq<AssessmentItem>,
    references: seq<Citation>)
}
