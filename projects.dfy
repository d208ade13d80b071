/**
 * The project showcase: the listing, project creation, the view counter, soft
 * deletion, and likes kept in the `project_likes` collection.  Each project's
 * `likes_count` is meant to equal the number of likes stored for it;
 * `Showcase.Consistent` states that, and every handler that succeeds keeps it.
 */
module Projects {

  import opened Wrappers
  import opened Tables
  import opened ObjectIds
  import opened Engagement
  import Paging
  import Validator
  import Text
  import AuthMiddleware

  datatype Project = Project(
    id: ObjectId,
    title: string,
    description: string,
    projectType: string,
    technologies: seq<string>,
    githubUrl: string,
    demoUrl: string,
    authorId: ObjectId,
    likesCount: int,
    viewsCount: int,
    isActive: bool,
    createdAt: int,
    updatedAt: int)

  datatype ProjectRequest = ProjectRequest(
    title: string,
    description: string,
    projectType: string,
    technologies: seq<string>,
    githubUrl: string,
    demoUrl: string)

  /** Store operations whose failure changes what a handler does. */
  datatype Step =
    | InsertProject | CountView | FindLike | InsertLike | IncrementLikes
    | DeleteLike | DecrementLikes | SoftDelete

  // ---------------------------------------------------------------------------
  // Listing

  /** The query string of `GET /projects`; `page` and `limit` as `strconv.Atoi` read them. */
  datatype ProjectQuery = ProjectQuery(page: int, limit: int, projectType: string, authorId: string)

  /**
   * The listing filter: active, of the requested type if one is given, and by the
   * requested author if that parses as an ObjectID (otherwise it is ignored).
   */
  predicate Listed(p: Project, q: ProjectQuery)
  {
    && p.isActive
    && (q.projectType == "" || p.projectType == q.projectType)
    && (q.authorId == "" || FromHex(q.authorId).None? || p.authorId == FromHex(q.authorId).value)
  }

  function ListedFilter(q: ProjectQuery): Project -> bool
  {
    (p: Project) => Listed(p, q)
  }

  /** The sort key of `created_at` descending: newest first. */
  function Newest(p: Project): int
  {
    -p.createdAt
  }

  /** `GetProjects`: the clamped page of listed projects, newest first. */
  function GetProjects(projects: seq<Project>, q: ProjectQuery): (r: Paging.Listing<Project>)
    ensures r.total == CountWhere(projects, ListedFilter(q))
    ensures 1 <= r.page && (q.page >= 1 ==> r.page == q.page)
    ensures 1 <= r.limit <= Paging.MaxLimit && |r.items| <= r.limit
    ensures r.totalPages == Paging.TotalPages(r.total, r.limit)
    ensures var w := Paging.Clamp(q.page, q.limit, Paging.DefaultLimit);
            r.page == w.page && r.limit == w.limit &&
            r.items == Paging.Slice(Paging.Ordered(projects, ListedFilter(q), Newest), Paging.Skip(w), w.limit)
    ensures forall i :: 0 <= i < |r.items| ==> r.items[i] in projects && Listed(r.items[i], q)
    ensures forall i, k :: 0 <= i < k < |r.items| ==> r.items[i].createdAt >= r.items[k].createdAt
  {
    var w := Paging.Clamp(q.page, q.limit, Paging.DefaultLimit);
    Paging.ListedDocuments(projects, ListedFilter(q), Newest, w);
    Paging.List(projects, ListedFilter(q), Newest, w)
  }

  // ---------------------------------------------------------------------------
  // Documents

  predicate ProjectIdsUnique(projects: seq<Project>)
  {
    forall i, k :: 0 <= i < k < |projects| ==> projects[i].id != projects[k].id
  }

  function WithProjectId(id: ObjectId): Project -> bool
  {
    (p: Project) => p.id == id
  }

  function ActiveWithId(id: ObjectId): Project -> bool
  {
    (p: Project) => p.id == id && p.isActive
  }

  /** The filter of `DeleteProject`: any active project for an admin, only the caller's own otherwise. */
  function Deletable(id: ObjectId, caller: ObjectId, role: AuthMiddleware.Role): Project -> bool
  {
    (p: Project) => p.id == id && p.isActive && (role == AuthMiddleware.Admin || p.authorId == caller)
  }

  /** A new project: sanitised title and description, no likes, no views, active. */
  function NewProject(req: ProjectRequest, id: ObjectId, author: ObjectId, now: int): (p: Project)
    ensures p.id == id && p.authorId == author
    ensures p.likesCount == 0 && p.viewsCount == 0 && p.isActive
    ensures p.createdAt == now && p.updatedAt == now
    ensures p.title == Validator.SanitizeString(req.title) && p.description == Validator.SanitizeString(req.description)
    ensures Validator.NoMarkup(p.title) && Text.Trimmed(p.title)
    ensures Validator.NoMarkup(p.description) && Text.Trimmed(p.description)
    ensures p.projectType == req.projectType && p.technologies == req.technologies
    ensures p.githubUrl == req.githubUrl && p.demoUrl == req.demoUrl
  {
    Project(id, Validator.SanitizeString(req.title), Validator.SanitizeString(req.description),
            req.projectType, req.technologies, req.githubUrl, req.demoUrl, author,
            0, 0, true, now, now)
  }

  /** The `$inc` of `likes_count` on the first project with that ID, if any. */
  function AddLikes(projects: seq<Project>, id: ObjectId, delta: int): (r: seq<Project>)
    ensures |r| == |projects|
    ensures forall i :: 0 <= i < |projects| ==> r[i] == projects[i].(likesCount := r[i].likesCount)
    ensures forall i :: 0 <= i < |projects| && projects[i].id != id ==> r[i] == projects[i]
  {
    match FirstWhere(projects, WithProjectId(id))
    case None => projects
    case Some(k) => projects[k := projects[k].(likesCount := projects[k].likesCount + delta)]
  }

  /** With unique IDs, `AddLikes` moves exactly the counter of the project with that ID, by `delta`. */
  lemma {:induction false} AddLikesCounts(projects: seq<Project>, id: ObjectId, delta: int, i: nat)
    requires ProjectIdsUnique(projects) && i < |projects|
    ensures AddLikes(projects, id, delta)[i].likesCount ==
            projects[i].likesCount + (if projects[i].id == id then delta else 0)
  {
  }

  /** The `$inc` of `views_count` on the first project with that ID, if any. */
  function AddView(projects: seq<Project>, id: ObjectId): (r: seq<Project>)
    ensures |r| == |projects|
    ensures forall i :: 0 <= i < |projects| ==> r[i] == projects[i].(viewsCount := r[i].viewsCount)
    ensures forall i :: 0 <= i < |projects| && projects[i].id != id ==> r[i] == projects[i]
  {
    match FirstWhere(projects, WithProjectId(id))
    case None => projects
    case Some(k) => projects[k := projects[k].(viewsCount := projects[k].viewsCount + 1)]
  }

  /** With unique IDs, a fetch adds exactly one view to the fetched project. */
  lemma {:induction false} AddViewCounts(projects: seq<Project>, id: ObjectId, i: nat)
    requires ProjectIdsUnique(projects) && i < |projects|
    ensures AddView(projects, id)[i].viewsCount == projects[i].viewsCount + (if projects[i].id == id then 1 else 0)
  {
  }

  // ---------------------------------------------------------------------------
  // The collections

  class Showcase {
    var projects: seq<Project>
    var likes: seq<Mark>

    /** Project IDs and like IDs are unique. */
    predicate Valid()
      reads this
    {
      ProjectIdsUnique(projects) && IdsUnique(likes)
    }

    /** A user likes a project at most once. */
    predicate OnePerPair()
      reads this
    {
      PairsUnique(likes)
    }

    /** Every project's `likes_count` is the number of likes stored for it. */
    predicate Consistent()
      reads this
    {
      Valid() && forall k :: 0 <= k < |projects| ==> projects[k].likesCount == MarksOn(likes, projects[k].id)
    }

    constructor ()
      ensures Consistent() && OnePerPair() && projects == [] && likes == []
    {
      projects, likes := [], [];
    }

    /** `CreateProject`: a valid request is stored as a new active project with no likes or views. */
    method CreateProject(req: Checked<ProjectRequest>, author: ObjectId, id: ObjectId, now: int, fails: set<Step>)
      returns (reply: Reply)
      requires Valid()
      requires forall i :: 0 <= i < |projects| ==> projects[i].id != id
      modifies this`projects
      ensures Valid() && (old(Consistent()) && MarksOn(old(likes), id) == 0 ==> Consistent())
      ensures projects != old(projects) && MarksOn(old(likes), id) != 0 ==> !Consistent()
      ensures req.Invalid? ==> reply == Reply(400, req.message) && projects == old(projects)
      ensures req.Parsed? && InsertProject in fails ==>
                reply == Reply(500, "Failed to create project") && projects == old(projects)
      ensures req.Parsed? && InsertProject !in fails ==>
                reply == Reply(201, "Project created successfully") &&
                projects == old(projects) + [NewProject(req.value, id, author, now)]
    {
      if req.Invalid? {
        return Reply(400, req.message);
      }
      if InsertProject in fails {
        return Reply(500, "Failed to create project");
      }
      var project := NewProject(req.value, id, author, now);
      projects := projects + [project];
      assert projects[|projects| - 1] == project;
      reply := Reply(201, "Project created successfully");
    }

    /**
     * `GetProjectByID`: only an active project is returned, as it was read, that is
     * before its view is counted; the view counter then rises by one unless that
     * write fails, which the handler ignores.
     */
    method GetProjectByID(projectHex: string, fails: set<Step>) returns (reply: Reply, found: Option<Project>)
      requires Valid()
      modifies this`projects
      ensures Valid() && (old(Consistent()) ==> Consistent())
      ensures FromHex(projectHex).None? ==>
                reply == Reply(400, "Invalid project ID") && found.None? && projects == old(projects)
      ensures FromHex(projectHex).Some? && FirstWhere(old(projects), ActiveWithId(FromHex(projectHex).value)).None? ==>
                reply == Reply(404, "Project not found") && found.None? && projects == old(projects)
      ensures FromHex(projectHex).Some? && FirstWhere(old(projects), ActiveWithId(FromHex(projectHex).value)).Some? ==>
                var k := FirstWhere(old(projects), ActiveWithId(FromHex(projectHex).value)).value;
                reply.status == 200 && found == Some(old(projects)[k]) &&
                projects == (if CountView in fails then old(projects) else AddView(old(projects), old(projects)[k].id))
      ensures found.Some? ==> found.value.isActive && found.value in old(projects)
    {
      var parsed := FromHex(projectHex);
      if parsed.None? {
        return Reply(400, "Invalid project ID"), None;
      }
      var k := FirstWhere(projects, ActiveWithId(parsed.value));
      if k.None? {
        return Reply(404, "Project not found"), None;
      }
      found := Some(projects[k.value]);
      if CountView !in fails {
        projects := AddView(projects, parsed.value);
      }
      reply := Reply(200, "");
    }

    /**
     * `LikeProject`: a like the duplicate check finds is refused with 409;
     * otherwise one like is inserted and the project's counter rises by one.  When
     * the check's read fails the insert goes ahead, so a second like of the same
     * user on the same project can be stored.
     */
    method LikeProject(projectHex: string, user: ObjectId, likeId: ObjectId, now: int, fails: set<Step>)
      returns (reply: Reply)
      requires Valid()
      requires forall i :: 0 <= i < |likes| ==> likes[i].id != likeId
      modifies this
      ensures Valid()
      ensures FromHex(projectHex).None? ==>
                reply == Reply(400, "Invalid project ID") && projects == old(projects) && likes == old(likes)
      ensures FromHex(projectHex).Some? ==>
                var project := FromHex(projectHex).value;
                var like := Mark(likeId, project, user, now);
                if FindLike !in fails && FirstWhere(old(likes), PairFilter(project, user)).Some? then
                  reply == Reply(409, "Project already liked") && projects == old(projects) && likes == old(likes)
                else if InsertLike in fails then
                  reply == Reply(500, "Failed to like project") && projects == old(projects) && likes == old(likes)
                else if IncrementLikes in fails then
                  reply == Reply(500, "Failed to update likes count") && projects == old(projects) &&
                  likes == old(likes) + [like]
                else
                  reply == Reply(200, "Project liked successfully") &&
                  likes == old(likes) + [like] && projects == AddLikes(old(projects), project, 1)
      ensures old(Consistent()) && reply.status == 200 ==> Consistent()
      ensures old(OnePerPair()) && FindLike !in fails ==> OnePerPair()
    {
      var parsed := FromHex(projectHex);
      if parsed.None? {
        return Reply(400, "Invalid project ID");
      }
      var project := parsed.value;
      if FindLike !in fails && FirstWhere(likes, PairFilter(project, user)).Some? {
        return Reply(409, "Project already liked");
      }
      if InsertLike in fails {
        return Reply(500, "Failed to like project");
      }
      var like := Mark(likeId, project, user, now);
      AddKeepsUnique(likes, like);
      ghost var before := likes;
      likes := likes + [like];
      if IncrementLikes in fails {
        return Reply(500, "Failed to update likes count");
      }
      ghost var consistent := old(Consistent());
      projects := AddLikes(projects, project, 1);
      if consistent {
        forall i | 0 <= i < |projects|
          ensures projects[i].likesCount == MarksOn(likes, projects[i].id)
        {
          AddLikesCounts(old(projects), project, 1, i);
          AddCounts(before, like, old(projects)[i].id);
        }
      }
      reply := Reply(200, "Project liked successfully");
    }

    /**
     * `UnlikeProject`: with no like of this user on this project the answer is 404
     * and nothing changes; otherwise the like is deleted and the counter falls by one.
     */
    method UnlikeProject(projectHex: string, user: ObjectId, fails: set<Step>)
      returns (reply: Reply)
      requires Valid()
      modifies this
      ensures Valid()
      ensures FromHex(projectHex).None? ==>
                reply == Reply(400, "Invalid project ID") && projects == old(projects) && likes == old(likes)
      ensures FromHex(projectHex).Some? ==>
                var project := FromHex(projectHex).value;
                var found := FirstWhere(old(likes), PairFilter(project, user));
                if found.None? || DeleteLike in fails then
                  reply == Reply(404, "Like not found") && projects == old(projects) && likes == old(likes)
                else
                  likes == old(likes)[..found.value] + old(likes)[found.value + 1..] &&
                  if DecrementLikes in fails then
                    reply == Reply(500, "Failed to update likes count") && projects == old(projects)
                  else
                    reply == Reply(200, "Project unliked successfully") &&
                    projects == AddLikes(old(projects), project, -1)
      ensures old(OnePerPair()) ==> OnePerPair()
      ensures old(OnePerPair()) && reply.status == 200 ==>
                FirstWhere(likes, PairFilter(FromHex(projectHex).value, user)).None?
      ensures old(Consistent()) && reply.status == 200 ==> Consistent()
    {
      var parsed := FromHex(projectHex);
      if parsed.None? {
        return Reply(400, "Invalid project ID");
      }
      var project := parsed.value;
      var found := FirstWhere(likes, PairFilter(project, user));
      if found.None? || DeleteLike in fails {
        return Reply(404, "Like not found");
      }
      var k := found.value;
      if PairsUnique(likes) {
        RemovedPairIsGone(likes, project, user);
      }
      reply := Withdraw(k, project, fails);
    }

    /** Deletes like `k`, given to `project`, then takes one off that project's counter. */
    method Withdraw(k: nat, project: ObjectId, fails: set<Step>) returns (reply: Reply)
      requires Valid() && k < |likes| && likes[k].targetId == project
      modifies this
      ensures Valid()
      ensures likes == old(likes)[..k] + old(likes)[k + 1..]
      ensures DecrementLikes in fails ==>
                reply == Reply(500, "Failed to update likes count") && projects == old(projects)
      ensures DecrementLikes !in fails ==>
                reply == Reply(200, "Project unliked successfully") && projects == AddLikes(old(projects), project, -1)
      ensures old(OnePerPair()) ==> OnePerPair()
      ensures old(Consistent()) && reply.status == 200 ==> Consistent()
    {
      RemoveKeepsUnique(likes, k);
      ghost var before := likes;
      likes := likes[..k] + likes[k + 1..];
      if DecrementLikes in fails {
        return Reply(500, "Failed to update likes count");
      }
      ghost var consistent := old(Consistent());
      projects := AddLikes(projects, project, -1);
      if consistent {
        forall i | 0 <= i < |projects|
          ensures projects[i].likesCount == MarksOn(likes, projects[i].id)
        {
          AddLikesCounts(old(projects), project, -1, i);
          RemoveCounts(before, k, old(projects)[i].id);
        }
      }
      reply := Reply(200, "Project unliked successfully");
    }

    /**
     * `DeleteProject`: a soft delete of the first active project with that ID,
     * which for a caller who is not an admin must also be the caller's own.  A
     * request that matches nothing still answers 200 and changes nothing.
     */
    method DeleteProject(projectHex: string, caller: ObjectId, role: AuthMiddleware.Role, now: int, fails: set<Step>)
      returns (reply: Reply)
      modifies this`projects
      ensures |projects| == |old(projects)|
      ensures role != AuthMiddleware.Admin ==>
                forall i :: 0 <= i < |projects| && old(projects)[i].authorId != caller ==> projects[i] == old(projects)[i]
      ensures FromHex(projectHex).None? ==> reply == Reply(400, "Invalid project ID") && projects == old(projects)
      ensures FromHex(projectHex).Some? && SoftDelete in fails ==>
                reply == Reply(404, "Project not found or access denied") && projects == old(projects)
      ensures FromHex(projectHex).Some? && SoftDelete !in fails ==>
                var found := FirstWhere(old(projects), Deletable(FromHex(projectHex).value, caller, role));
                reply == Reply(200, "Project deleted successfully") &&
                (found.None? ==> projects == old(projects)) &&
                (found.Some? ==> projects == old(projects)[found.value :=
                                   old(projects)[found.value].(isActive := false, updatedAt := now)])
      ensures old(Consistent()) ==> Consistent()
    {
      var parsed := FromHex(projectHex);
      if parsed.None? {
        return Reply(400, "Invalid project ID");
      }
      if SoftDelete in fails {
        return Reply(404, "Project not found or access denied");
      }
      var found := FirstWhere(projects, Deletable(parsed.value, caller, role));
      if found.Some? {
        var k := found.value;
        projects := projects[k := projects[k].(isActive := false, updatedAt := now)];
      }
      reply := Reply(200, "Project deleted successfully");
    }
  }
}
