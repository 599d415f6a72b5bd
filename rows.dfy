/**
 * The renaming between the application's field names and the backend's
 * column names: the insert payloads built by `saveProject` and `saveBadge`,
 * and the mapping back in `getProjects` and `getBadges`.
 */
module Rows {
  import opened Wrappers
  import opened Records

  /** The columns `saveProject` inserts. */
  datatype ProjectInsert = ProjectInsert(
    userId: string, name: Option<string>, description: Option<string>, status: string,
    phaseData: Option<Json>, tags: seq<string>, progressPercentage: int)

  /** A stored project row: the inserted columns plus the id and timestamps the backend issues. */
  datatype ProjectRow = ProjectRow(id: string, fields: ProjectInsert, createdAt: string, updatedAt: string)

  /**
   * The insert payload: owner, name and description as given; a status that is
   * never empty ("active" for a missing or empty one); `phase_data`, else
   * `phases`; tags defaulting to [] and progress to 0.
   */
  function ProjectInsertOf(p: Project, userId: string): (r: ProjectInsert)
    ensures r.userId == userId && r.name == p.name && r.description == p.description
    ensures r.status != "" && (Truthy(p.status) ==> r.status == p.status.value)
    ensures !Truthy(p.status) ==> r.status == "active"
    ensures r.phaseData == if p.phaseData.Some? then p.phaseData else p.phases
    ensures p.tags.Some? ==> r.tags == p.tags.value
    ensures p.tags.None? ==> r.tags == []
    ensures p.progress.Some? ==> r.progressPercentage == p.progress.value
    ensures p.progress.None? ==> r.progressPercentage == 0
  {
    ProjectInsert(
      userId, p.name, p.description, Or(p.status, "active"),
      if p.phaseData.Some? then p.phaseData else p.phases,
      p.tags.GetOr([]), p.progress.GetOr(0))
  }

  /**
   * A row read back into the application's shape: the backend's id and
   * timestamps, `phase_data` as `phases`, `progress_percentage` as `progress`,
   * and the other columns under their own names.
   */
  function ProjectFromRow(row: ProjectRow): (p: Project)
    ensures p.id == Some(row.id) && p.createdAt == Some(row.createdAt) && p.updatedAt == Some(row.updatedAt)
    ensures p.phases == row.fields.phaseData && p.phaseData.None?
    ensures p.progress == Some(row.fields.progressPercentage)
    ensures p.name == row.fields.name && p.description == row.fields.description
    ensures p.status == Some(row.fields.status) && p.tags == Some(row.fields.tags)
  {
    Project(
      id := Some(row.id), name := row.fields.name, description := row.fields.description,
      status := Some(row.fields.status), phases := row.fields.phaseData, phaseData := None,
      tags := Some(row.fields.tags), progress := Some(row.fields.progressPercentage),
      createdAt := Some(row.createdAt), updatedAt := Some(row.updatedAt))
  }

  /**
   * A project inserted and read back keeps its name and description, gets the
   * backend's id and timestamps, and has the defaults filled in.
   */
  lemma ProjectInsertThenRead(p: Project, userId: string, id: string, createdAt: string, updatedAt: string)
    ensures ProjectFromRow(ProjectRow(id, ProjectInsertOf(p, userId), createdAt, updatedAt)) ==
      p.(id := Some(id), status := Some(Or(p.status, "active")),
         phases := (if p.phaseData.Some? then p.phaseData else p.phases), phaseData := None,
         tags := Some(p.tags.GetOr([])), progress := Some(p.progress.GetOr(0)),
         createdAt := Some(createdAt), updatedAt := Some(updatedAt))
  {
  }

  /** A row with a non-empty status, read and inserted again, gives the same columns. */
  lemma ProjectReadThenInsert(row: ProjectRow)
    requires row.fields.status != ""
    ensures ProjectInsertOf(ProjectFromRow(row), row.fields.userId) == row.fields
  {
  }

  /** The columns `saveBadge` inserts. */
  datatype BadgeInsert = BadgeInsert(
    userId: string, badgeId: string, title: string, description: string, icon: string,
    xp: int, category: string, metadata: Json)

  /** A stored badge row: the inserted columns plus the id and earning time the backend issues. */
  datatype BadgeRow = BadgeRow(id: string, fields: BadgeInsert, earnedAt: string)

  /**
   * The insert payload: `id` becomes `badge_id` and `desc` becomes
   * `description`; the category is never empty ("special" for a missing or
   * empty one) and metadata defaults to `{}`.
   */
  function BadgeInsertOf(b: Badge, userId: string): (r: BadgeInsert)
    ensures r.userId == userId && r.badgeId == b.id && r.description == b.desc
    ensures r.title == b.title && r.icon == b.icon && r.xp == b.xp
    ensures r.category != "" && (Truthy(b.category) ==> r.category == b.category.value)
    ensures !Truthy(b.category) ==> r.category == "special"
    ensures b.metadata.Some? ==> r.metadata == b.metadata.value
    ensures b.metadata.None? ==> r.metadata == "{}"
  {
    BadgeInsert(userId, b.id, b.title, b.desc, b.icon, b.xp, Or(b.category, "special"), b.metadata.GetOr("{}"))
  }

  /** A row read back: `badge_id` becomes `id`, `description` becomes `desc`; category and metadata are not read. */
  function BadgeFromRow(row: BadgeRow): (b: Badge)
    ensures b.id == row.fields.badgeId && b.desc == row.fields.description && b.earnedAt == Some(row.earnedAt)
    ensures b.title == row.fields.title && b.icon == row.fields.icon && b.xp == row.fields.xp
    ensures b.category.None? && b.metadata.None?
  {
    Badge(
      id := row.fields.badgeId, title := row.fields.title, desc := row.fields.description,
      icon := row.fields.icon, xp := row.fields.xp, category := None, metadata := None,
      earnedAt := Some(row.earnedAt))
  }

  /** A badge inserted and read back keeps id, title, description, icon and XP, and loses category and metadata. */
  lemma BadgeInsertThenRead(b: Badge, userId: string, id: string, earnedAt: string)
    ensures BadgeFromRow(BadgeRow(id, BadgeInsertOf(b, userId), earnedAt)) ==
      b.(category := None, metadata := None, earnedAt := Some(earnedAt))
  {
  }
}
