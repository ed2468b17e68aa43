/** The entities the program passes around: a project as the list endpoint returns it,
    and the record the project-list cache keeps for it. */
module Projects {
  import opened Wrappers

  datatype Namespace = Namespace(name: string)

  /** A project object from `GET /api/v4/projects`, reduced to the fields the program
      reads; `lastActivityAt` is None when the object has no `last_activity_at` key. */
  datatype ApiProject = ApiProject(
    id: int,
    name: string,
    path: string,
    namespace: Namespace,
    lastActivityAt: Option<string>)

  /** One entry of the cached project listing. */
  datatype Record = Record(
    id: int,
    name: string,
    path: string,
    namespace: string,
    lastActivityAt: string)

  /** The placeholder "未知" ("unknown") stored for a missing `last_activity_at`. */
  const UnknownActivity: string := "\U{672A}\U{77E5}"

  /** Some record carries `id`: `any(p['id'] == id for p in records)`. */
  predicate HasId(records: seq<Record>, id: int) {
    exists k :: 0 <= k < |records| && records[k].id == id
  }

  /** `records[k]` is the first record whose id is `id`. */
  predicate IsFirstWithId(records: seq<Record>, id: int, k: int) {
    && 0 <= k < |records|
    && records[k].id == id
    && forall j :: 0 <= j < k ==> records[j].id != id
  }
}
