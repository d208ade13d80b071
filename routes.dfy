/**
 * The access policy wired at start-up: every endpoint with its method, path and
 * own middleware, the three groups registered with middleware, and the chain of
 * middleware a request to an endpoint runs through before its handler.
 *
 * The router keeps one stack in registration order.  A group created with
 * middleware registers that middleware on the group's path prefix, and it runs for
 * every request under the prefix that reaches it, including requests to routes
 * registered later outside the group; the root prefix "/" covers every path.
 */
module Routes {

  import opened Wrappers
  import opened ObjectIds
  import opened AuthMiddleware
  import RateLimiting

  datatype HttpMethod = GET | POST | PUT | DELETE

  /** The middleware that appear in the policy. */
  datatype Mw =
    | RateLimited(action: string)   // the request limiter for one action
    | Authenticate                  // the bearer-token check
    | Roles(roles: seq<Role>)       // the role gate
    | WsGuard                       // the upgrade-and-query-token check in front of the chat socket

  // The routes of each section, in registration order.
  datatype AuthRoute = Register | VerifyOTP | Login | ForgotPassword | ResetPassword | RefreshToken | Logout
  datatype UsersRoute = GetProfile | UpdateProfile | GetUsers | GetDashboardStats | GetUserByID
  datatype ProjectsRoute =
    | GetProjects | CreateProject | GetProjectByID | UpdateProject | DeleteProject | LikeProject | UnlikeProject
  datatype JobsRoute =
    | GetJobs | CreateJob | GetJobByID | UpdateJob | DeleteJob | ShowInterest | RemoveInterest | GetInterestedUsers
  datatype EventsRoute =
    | GetEvents | CreateEvent | GetEventByID | UpdateEvent | DeleteEvent | RSVPEvent | GetEventAttendees
  datatype MessagesRoute = GetConversations | SendMessage | GetMessages | MarkMessageAsRead
  datatype NotificationsRoute = GetNotifications | MarkNotificationAsRead | MarkAllAsRead
  datatype GalleryRoute = GetGalleryItems | CreateGalleryItem | GetGalleryItemByID | DeleteGalleryItem
  /** The admin group's routes, followed by those of the e-mail settings group nested in it. */
  datatype AdminRoute =
    | GetAllUsers | UpdateUserStatus | DeleteUser | GetAnalytics | GetDashboardAnalytics
    | GetEmailSettings | UpdateEmailSettings | TestEmailConnection | GetEmailTemplates | CreateEmailTemplate
    | GetEmailStats
  datatype UploadRoute = UploadAvatar | UploadGalleryImage

  /** An endpoint: a section and one of its routes (the chat socket is the only route under /ws). */
  datatype Endpoint =
    | Auth(auth: AuthRoute)
    | Users(users: UsersRoute)
    | Projects(projects: ProjectsRoute)
    | Jobs(jobs: JobsRoute)
    | Events(events: EventsRoute)
    | Messages(messages: MessagesRoute)
    | Notifications(notifications: NotificationsRoute)
    | Gallery(gallery: GalleryRoute)
    | AdminPanel(admin: AdminRoute)
    | WsChat
    | Upload(upload: UploadRoute)

  /**
   * The first segment of a route's path.  A group's prefix is one segment, and the
   * router matches a prefix segment-wise ("/admin" covers "/admin" and "/admin/...",
   * not "/administration"), so a prefix covers a route exactly when the route's
   * first segment is the prefix's.
   */
  datatype Section =
    | AuthApi | UsersApi | ProjectsApi | JobsApi | EventsApi | MessagesApi
    | NotificationsApi | GalleryApi | AdminApi | WsApi | UploadApi

  function SectionName(s: Section): string
  {
    match s
    case AuthApi => "auth"
    case UsersApi => "users"
    case ProjectsApi => "projects"
    case JobsApi => "jobs"
    case EventsApi => "events"
    case MessagesApi => "messages"
    case NotificationsApi => "notifications"
    case GalleryApi => "gallery"
    case AdminApi => "admin"
    case WsApi => "ws"
    case UploadApi => "upload"
  }

  function SectionOf(e: Endpoint): Section
  {
    match e
    case Auth(_) => AuthApi
    case Users(_) => UsersApi
    case Projects(_) => ProjectsApi
    case Jobs(_) => JobsApi
    case Events(_) => EventsApi
    case Messages(_) => MessagesApi
    case Notifications(_) => NotificationsApi
    case Gallery(_) => GalleryApi
    case AdminPanel(_) => AdminApi
    case WsChat => WsApi
    case Upload(_) => UploadApi
  }

  function Verb(e: Endpoint): HttpMethod
  {
    match e
    case Auth(_) => POST
    case Users(r) => (match r case UpdateProfile => PUT case _ => GET)
    case Projects(r) =>
      (match r
       case CreateProject | LikeProject => POST
       case UpdateProject => PUT
       case DeleteProject | UnlikeProject => DELETE
       case _ => GET)
    case Jobs(r) =>
      (match r
       case CreateJob | ShowInterest => POST
       case UpdateJob => PUT
       case DeleteJob | RemoveInterest => DELETE
       case _ => GET)
    case Events(r) =>
      (match r
       case CreateEvent | RSVPEvent => POST
       case UpdateEvent => PUT
       case DeleteEvent => DELETE
       case _ => GET)
    case Messages(r) =>
      (match r case SendMessage => POST case MarkMessageAsRead => PUT case _ => GET)
    case Notifications(r) => (match r case GetNotifications => GET case _ => PUT)
    case Gallery(r) =>
      (match r case CreateGalleryItem => POST case DeleteGalleryItem => DELETE case _ => GET)
    case AdminPanel(r) =>
      (match r
       case UpdateUserStatus | UpdateEmailSettings => PUT
       case DeleteUser => DELETE
       case TestEmailConnection | CreateEmailTemplate => POST
       case _ => GET)
    case WsChat => GET
    case Upload(_) => POST
  }

  /** The remainder of a route's path after its first segment. */
  function Subpath(e: Endpoint): string
  {
    match e
    case Auth(r) =>
      (match r
       case Register => "/register"
       case VerifyOTP => "/verify-otp"
       case Login => "/login"
       case ForgotPassword => "/forgot-password"
       case ResetPassword => "/reset-password"
       case RefreshToken => "/refresh"
       case Logout => "/logout")
    case Users(r) =>
      (match r
       case GetProfile => "/profile"
       case UpdateProfile => "/updateprofile"
       case GetUsers => "/getusers"
       case GetDashboardStats => "/dashboard-stats"
       case GetUserByID => "/:id")
    case Projects(r) =>
      (match r
       case GetProjects => "/projectview"
       case CreateProject => "/addproject"
       case LikeProject | UnlikeProject => "/:id/like"
       case _ => "/:id")
    case Jobs(r) =>
      (match r
       case GetJobs => "/"
       case CreateJob => "/add"
       case ShowInterest | RemoveInterest => "/:id/interest"
       case GetInterestedUsers => "/:id/interested-users"
       case _ => "/:id")
    case Events(r) =>
      (match r
       case GetEvents | CreateEvent => "/"
       case RSVPEvent => "/:id/rsvp"
       case GetEventAttendees => "/:id/attendees"
       case _ => "/:id")
    case Messages(r) =>
      (match r
       case GetConversations => "/message"
       case SendMessage => "/sendmessage"
       case GetMessages => "/:id"
       case MarkMessageAsRead => "/:id/read")
    case Notifications(r) =>
      (match r
       case GetNotifications => "/inbox"
       case MarkNotificationAsRead => "/:id/read"
       case MarkAllAsRead => "/read-all")
    case Gallery(r) =>
      (match r
       case GetGalleryItems => "/items"
       case CreateGalleryItem => "/upload"
       case _ => "/:id")
    case AdminPanel(r) =>
      (match r
       case GetAllUsers => "/users"
       case UpdateUserStatus => "/users/:id/status"
       case DeleteUser => "/users/:id"
       case GetAnalytics => "/analytics"
       case GetDashboardAnalytics => "/dashboard-analytics"
       case GetEmailSettings | UpdateEmailSettings => "/email-settings/"
       case TestEmailConnection => "/email-settings/test"
       case GetEmailTemplates | CreateEmailTemplate => "/email-settings/templates"
       case GetEmailStats => "/email-settings/stats")
    case WsChat => "/chat"
    case Upload(r) => (match r case UploadAvatar => "/avatar" case UploadGalleryImage => "/gallery")
  }

  /** The full path of a route. */
  function Path(e: Endpoint): string
  {
    "/" + SectionName(SectionOf(e)) + Subpath(e)
  }

  // Each route's place in the registration order.  The groups with middleware take
  // places 8 (the protected group), 47 (the admin group) and 60 (the upload group).

  function AuthPos(r: AuthRoute): (p: nat)
    ensures 1 <= p <= 7
  {
    match r
    case Register => 1
    case VerifyOTP => 2
    case Login => 3
    case ForgotPassword => 4
    case ResetPassword => 5
    case RefreshToken => 6
    case Logout => 7
  }

  function UsersPos(r: UsersRoute): (p: nat)
    ensures 9 <= p <= 13
  {
    match r
    case GetProfile => 9
    case UpdateProfile => 10
    case GetUsers => 11
    case GetDashboardStats => 12
    case GetUserByID => 13
  }

  function ProjectsPos(r: ProjectsRoute): (p: nat)
    ensures 14 <= p <= 20
  {
    match r
    case GetProjects => 14
    case CreateProject => 15
    case GetProjectByID => 16
    case UpdateProject => 17
    case DeleteProject => 18
    case LikeProject => 19
    case UnlikeProject => 20
  }

  function JobsPos(r: JobsRoute): (p: nat)
    ensures 21 <= p <= 28
  {
    match r
    case GetJobs => 21
    case CreateJob => 22
    case GetJobByID => 23
    case UpdateJob => 24
    case DeleteJob => 25
    case ShowInterest => 26
    case RemoveInterest => 27
    case GetInterestedUsers => 28
  }

  function EventsPos(r: EventsRoute): (p: nat)
    ensures 29 <= p <= 35
  {
    match r
    case GetEvents => 29
    case CreateEvent => 30
    case GetEventByID => 31
    case UpdateEvent => 32
    case DeleteEvent => 33
    case RSVPEvent => 34
    case GetEventAttendees => 35
  }

  function MessagesPos(r: MessagesRoute): (p: nat)
    ensures 36 <= p <= 39
  {
    match r
    case GetConversations => 36
    case SendMessage => 37
    case GetMessages => 38
    case MarkMessageAsRead => 39
  }

  function NotificationsPos(r: NotificationsRoute): (p: nat)
    ensures 40 <= p <= 42
  {
    match r
    case GetNotifications => 40
    case MarkNotificationAsRead => 41
    case MarkAllAsRead => 42
  }

  function GalleryPos(r: GalleryRoute): (p: nat)
    ensures 43 <= p <= 46
  {
    match r
    case GetGalleryItems => 43
    case CreateGalleryItem => 44
    case GetGalleryItemByID => 45
    case DeleteGalleryItem => 46
  }

  function AdminPos(r: AdminRoute): (p: nat)
    ensures 48 <= p <= 58
  {
    match r
    case GetAllUsers => 48
    case UpdateUserStatus => 49
    case DeleteUser => 50
    case GetAnalytics => 51
    case GetDashboardAnalytics => 52
    case GetEmailSettings => 53
    case UpdateEmailSettings => 54
    case TestEmailConnection => 55
    case GetEmailTemplates => 56
    case CreateEmailTemplate => 57
    case GetEmailStats => 58
  }

  function Pos(e: Endpoint): nat
  {
    match e
    case Auth(r) => AuthPos(r)
    case Users(r) => UsersPos(r)
    case Projects(r) => ProjectsPos(r)
    case Jobs(r) => JobsPos(r)
    case Events(r) => EventsPos(r)
    case Messages(r) => MessagesPos(r)
    case Notifications(r) => NotificationsPos(r)
    case Gallery(r) => GalleryPos(r)
    case AdminPanel(r) => AdminPos(r)
    case WsChat => 59
    case Upload(r) => (match r case UploadAvatar => 61 case UploadGalleryImage => 62)
  }

  /** Middleware registered by creating a group with it: on the root prefix "/" (`None`) or on one section. */
  datatype GroupUse = GroupUse(prefix: Option<Section>, mw: Mw, pos: nat)

  /** The protected group: the root prefix, registered right after the seven /auth routes. */
  const ProtectedGroup := GroupUse(None, Authenticate, 8)
  const AdminGroup := GroupUse(Some(AdminApi), Roles([Admin]), 47)
  const UploadGroup := GroupUse(Some(UploadApi), Authenticate, 60)

  /** The limiter action a route is wired with, if any. */
  function RateAction(e: Endpoint): Option<string>
  {
    match e
    case Auth(r) =>
      (match r
       case Register => Some("register")
       case Login => Some("login")
       case RefreshToken => Some("refresh")
       case _ => None)
    case _ => None
  }

  /** The roles a route's own role gate admits, if it has one. */
  function Gate(e: Endpoint): Option<seq<Role>>
  {
    match e
    case Projects(r) =>
      (match r
       case CreateProject | UpdateProject => Some([Student])
       case DeleteProject => Some([Student, Admin])
       case _ => None)
    case Jobs(r) =>
      (match r
       case CreateJob | UpdateJob => Some([Alumni])
       case DeleteJob | GetInterestedUsers => Some([Alumni, Admin])
       case ShowInterest | RemoveInterest => Some([Student])
       case _ => None)
    case Events(r) =>
      (match r
       case CreateEvent | UpdateEvent | DeleteEvent => Some([Admin])
       case _ => None)
    case Gallery(r) =>
      (match r
       case CreateGalleryItem | DeleteGalleryItem => Some([Faculty, Admin])
       case _ => None)
    case Upload(r) =>
      (match r
       case UploadGalleryImage => Some([Faculty, Alumni, Student])
       case UploadAvatar => None)
    case _ => None
  }

  /** A route's own middleware: its limiter, its role gate or the socket's guard. */
  function Own(e: Endpoint): seq<Mw>
  {
    match e
    case Auth(_) => if RateAction(e).Some? then [RateLimited(RateAction(e).value)] else []
    case WsChat => [WsGuard]
    case _ => if Gate(e).Some? then [Roles(Gate(e).value)] else []
  }

  /** The seven routes registered before the protected group. */
  predicate IsAuthRoute(e: Endpoint)
  {
    Pos(e) < ProtectedGroup.pos
  }

  /** A group's middleware runs before a route registered after it whose path lies under its prefix. */
  predicate UseApplies(g: GroupUse, section: Section, pos: nat)
  {
    g.pos < pos && (g.prefix.None? || g.prefix.value == section)
  }

  /** The group middleware, in registration order, that runs before a route in `section` registered at `pos`. */
  function GroupChain(section: Section, pos: nat): seq<Mw>
  {
    (if UseApplies(ProtectedGroup, section, pos) then [ProtectedGroup.mw] else [])
    + (if UseApplies(AdminGroup, section, pos) then [AdminGroup.mw] else [])
    + (if UseApplies(UploadGroup, section, pos) then [UploadGroup.mw] else [])
  }

  /** The middleware a request to `e` passes through, for a route registered at `pos`. */
  function ChainAt(e: Endpoint, pos: nat): seq<Mw>
  {
    GroupChain(SectionOf(e), pos) + Own(e)
  }

  /** The chain as the routes are registered. */
  function Chain(e: Endpoint): seq<Mw>
  {
    ChainAt(e, Pos(e))
  }


  datatype Request = Request(
    authorization: string,  // the Authorization header
    upgrade: bool,          // whether the request asks for a WebSocket upgrade
    token: string)          // the "token" query parameter

  datatype Response =
    | Rejected(status: int, message: string)
    | Handled(userId: LocalValue, role: Option<Role>)

  /** What the middleware run so far have stored in the request's locals. */
  datatype Ctx = Ctx(userId: LocalValue, role: Option<Role>)

  datatype Step = Continue(ctx: Ctx) | Stop(resp: Response)

  /** Validates a token and gives its user ID as the 24-digit hex string that parses back to it. */
  function ValidateTokenAndGetUserID(token: string, validate: string -> Option<Claims>): (r: Option<string>)
    ensures r.Some? <==> validate(token).Some?
    ensures r.Some? ==> |r.value| == 24 && FromHex(r.value) == Some(validate(token).value.userId)
  {
    match validate(token)
    case None => None
    case Some(c) => HexRoundTrip(c.userId); Some(Hex(c.userId))
  }

  /** The chat-socket guard: the refusal it answers with, or `None` when it lets the request through. */
  function WsGuardCheck(req: Request, validate: string -> Option<Claims>): (r: Option<Response>)
    ensures !req.upgrade ==> r == Some(Rejected(426, "Upgrade Required"))
    ensures req.upgrade && req.token == "" ==> r == Some(Rejected(401, "Token required"))
    ensures req.upgrade && req.token != "" && validate(req.token).None? ==> r == Some(Rejected(401, "Invalid token"))
    ensures r.None? <==> req.upgrade && req.token != "" && validate(req.token).Some?
  {
    if !req.upgrade then Some(Rejected(426, "Upgrade Required"))
    else if req.token == "" then Some(Rejected(401, "Token required"))
    else if validate(req.token).None? then Some(Rejected(401, "Invalid token"))
    else None
  }

  /**
   * One middleware.  `limiter` gives the decision of the rate limiter of each action
   * for this request: a pass, 429, or 500 with the limiter's message.
   * The role gate reads the role stored by authentication; without one the request
   * fails (a type assertion on a missing value, which panic recovery turns into 500).
   * The chat guard stores the user ID as its hex string.
   */
  function RunMw(mw: Mw, req: Request, ctx: Ctx, validate: string -> Option<Claims>, limiter: string -> RateLimiting.Decision): Step
  {
    match mw
    case RateLimited(action) =>
      (match limiter(action)
       case Pass => Continue(ctx)
       case TooManyRequests => Stop(Rejected(429, "Rate limit exceeded. Please try again later."))
       case InternalError(msg) => Stop(Rejected(500, msg)))
    case Authenticate =>
      (match AuthRequired(req.authorization, validate)
       case Unauthorized(msg) => Stop(Rejected(401, msg))
       case Authenticated(l) => Continue(Ctx(l.userId, Some(l.role))))
    case Roles(roles) =>
      if ctx.role.None? then Stop(Rejected(500, "Internal Server Error"))
      else
        (match RoleRequired(ctx.role.value, roles)
         case Next => Continue(ctx)
         case Forbidden(status, msg) => Stop(Rejected(status, msg)))
    case WsGuard =>
      (match WsGuardCheck(req, validate)
       case None => Continue(Ctx(Str(ValidateTokenAndGetUserID(req.token, validate).value), ctx.role))
       case Some(resp) => Stop(resp))
  }

  /** Runs the middleware in order; the handler is reached when all of them pass. */
  function RunChain(chain: seq<Mw>, req: Request, ctx: Ctx, validate: string -> Option<Claims>, limiter: string -> RateLimiting.Decision): Response
  {
    if chain == [] then Handled(ctx.userId, ctx.role)
    else
      match RunMw(chain[0], req, ctx, validate, limiter)
      case Stop(resp) => resp
      case Continue(ctx') => RunChain(chain[1..], req, ctx', validate, limiter)
  }

  /** The response to a request for endpoint `e`: `Handled` when its handler runs. */
  function Serve(e: Endpoint, req: Request, validate: string -> Option<Claims>, limiter: string -> RateLimiting.Decision): Response
  {
    RunChain(Chain(e), req, Ctx(Absent, None), validate, limiter)
  }

  /** The request carries an Authorization header whose token validates. */
  predicate ValidHeader(req: Request, validate: string -> Option<Claims>)
  {
    req.authorization != "" && validate(StripBearer(req.authorization)).Some?
  }

  function HeaderRole(req: Request, validate: string -> Option<Claims>): Role
    requires ValidHeader(req, validate)
  {
    validate(StripBearer(req.authorization)).value.role
  }

  /** The seven /auth routes are exactly those registered before the protected group; every other route comes after it. */
  lemma {:induction false} AuthRoutesFirst(e: Endpoint)
    ensures IsAuthRoute(e) <==> e.Auth?
    ensures !e.Auth? ==> Pos(e) > ProtectedGroup.pos
  {
    match e
    case Auth(r) =>
    case Users(r) =>
    case Projects(r) =>
    case Jobs(r) =>
    case Events(r) =>
    case Messages(r) =>
    case Notifications(r) =>
    case Gallery(r) =>
    case AdminPanel(r) =>
    case WsChat =>
    case Upload(r) =>
  }

  /** Before every group a chain is the route's own middleware; after the protected group it starts with the bearer check. */
  lemma {:induction false} ChainAtHead(e: Endpoint, pos: nat)
    ensures pos <= ProtectedGroup.pos ==> ChainAt(e, pos) == Own(e)
    ensures pos > ProtectedGroup.pos ==> |ChainAt(e, pos)| >= 1 && ChainAt(e, pos)[0] == Authenticate
  {
  }

  /** Group middleware never reaches the seven /auth routes, and the bearer check heads every other chain. */
  lemma {:induction false} ChainHeads(e: Endpoint)
    ensures e.Auth? ==> Chain(e) == Own(e)
    ensures !e.Auth? ==> |Chain(e)| >= 1 && Chain(e)[0] == Authenticate
  {
    AuthRoutesFirst(e);
    ChainAtHead(e, Pos(e));
  }

  /** Every route registered after the protected group refuses a request without a valid bearer token. */
  lemma {:induction false} ProtectedRoutesNeedToken(e: Endpoint, req: Request, validate: string -> Option<Claims>, limiter: string -> RateLimiting.Decision)
    requires !e.Auth?
    ensures req.authorization == "" ==> Serve(e, req, validate, limiter) == Rejected(401, "Authorization header required")
    ensures req.authorization != "" && !ValidHeader(req, validate) ==>
              Serve(e, req, validate, limiter) == Rejected(401, "Invalid or expired token")
    ensures Serve(e, req, validate, limiter).Handled? ==> ValidHeader(req, validate)
  {
    ChainHeads(e);
  }

  /** A route's own middleware holds a limiter exactly for register, login and refresh. */
  lemma {:induction false} OwnLimiter(e: Endpoint, action: string)
    ensures RateLimited(action) in Own(e) <==> RateAction(e) == Some(action)
  {
    match e
    case Auth(r) =>
    case WsChat =>
    case _ =>
  }

  /** Groups register no limiter, so a chain holds a limiter only when the route's own middleware does. */
  lemma {:induction false} ChainAtLimiter(e: Endpoint, pos: nat, action: string)
    ensures RateLimited(action) in ChainAt(e, pos) <==> RateLimited(action) in Own(e)
  {
    assert RateLimited(action) !in GroupChain(SectionOf(e), pos);
  }

  /** A limiter appears only in the chains of register, login and refresh, under their own action names. */
  lemma {:induction false} LimiterPlacement(e: Endpoint, action: string)
    ensures RateLimited(action) in Chain(e) <==> RateAction(e) == Some(action)
  {
    OwnLimiter(e, action);
    ChainAtLimiter(e, Pos(e), action);
  }

  /**
   * Only register, login and refresh are rate limited, each under its own action
   * name, and the /auth routes need no token: they are refused only by their limiter.
   */
  lemma {:induction false} OnlyThreeRateLimited(e: Endpoint, action: string, req: Request, validate: string -> Option<Claims>, limiter: string -> RateLimiting.Decision)
    ensures RateLimited(action) in Chain(e) <==> RateAction(e) == Some(action)
    ensures e.Auth? ==>
              Serve(e, req, validate, limiter)
              == if RateAction(e).None? then Handled(Absent, None)
                 else match limiter(RateAction(e).value)
                   case Pass => Handled(Absent, None)
                   case TooManyRequests => Rejected(429, "Rate limit exceeded. Please try again later.")
                   case InternalError(msg) => Rejected(500, msg)
  {
    LimiterPlacement(e, action);
    if e.Auth? {
      ChainHeads(e);
      var ctx := Ctx(Absent, None);
      if RateAction(e).Some? {
        var a := RateAction(e).value;
        assert Chain(e) == [RateLimited(a)];
        assert [RateLimited(a)][1..] == [];
        if limiter(a).Pass? {
          assert RunMw(RateLimited(a), req, ctx, validate, limiter) == Continue(ctx);
          assert RunChain([RateLimited(a)], req, ctx, validate, limiter) == RunChain([], req, ctx, validate, limiter);
        }
      } else {
        assert Chain(e) == [];
      }
    }
  }

  /** An authenticated request through a role gate: handled iff the role is listed, otherwise 403. */
  lemma {:induction false} GatedChain(roles: seq<Role>, req: Request, validate: string -> Option<Claims>, limiter: string -> RateLimiting.Decision)
    ensures var r := RunChain([Authenticate, Roles(roles)], req, Ctx(Absent, None), validate, limiter);
            (r.Handled? <==> ValidHeader(req, validate) && HeaderRole(req, validate) in roles)
            && (ValidHeader(req, validate) && HeaderRole(req, validate) !in roles ==>
                  r == Rejected(403, "Insufficient permissions"))
            && (r.Handled? ==>
                  r.role == Some(HeaderRole(req, validate))
                  && r.userId == Oid(validate(StripBearer(req.authorization)).value.userId))
  {
    if ValidHeader(req, validate) {
      var c := validate(StripBearer(req.authorization)).value;
      var ctx := Ctx(Oid(c.userId), Some(c.role));
      assert RunMw(Authenticate, req, Ctx(Absent, None), validate, limiter) == Continue(ctx);
      assert [Authenticate, Roles(roles)][1..] == [Roles(roles)];
      assert [Roles(roles)][1..] == [];
      var tail := RunChain([Roles(roles)], req, ctx, validate, limiter);
      assert RunChain([Authenticate, Roles(roles)], req, Ctx(Absent, None), validate, limiter) == tail;
      if c.role in roles {
        assert RunMw(Roles(roles), req, ctx, validate, limiter) == Continue(ctx);
        assert tail == RunChain([], req, ctx, validate, limiter);
      } else {
        assert tail == Rejected(403, "Insufficient permissions");
      }
    }
  }

  /**
   * A route under a section without group middleware of its own, with a role gate:
   * its chain is the bearer check followed by the gate.
   */
  lemma {:induction false} GatedRouteChain(e: Endpoint)
    requires !e.Auth? && !e.AdminPanel? && !e.Upload? && Gate(e).Some?
    ensures Chain(e) == [Authenticate, Roles(Gate(e).value)]
  {
    AuthRoutesFirst(e);
    assert GroupChain(SectionOf(e), Pos(e)) == [Authenticate];
  }

  /** Only alumni may post a job; students, faculty and admins are refused with 403. */
  lemma {:induction false} PostJobAlumniOnly(req: Request, validate: string -> Option<Claims>, limiter: string -> RateLimiting.Decision)
    ensures Serve(Jobs(CreateJob), req, validate, limiter).Handled? <==>
              ValidHeader(req, validate) && HeaderRole(req, validate) == Alumni
    ensures ValidHeader(req, validate) && HeaderRole(req, validate) != Alumni ==>
              Serve(Jobs(CreateJob), req, validate, limiter) == Rejected(403, "Insufficient permissions")
  {
    GatedRouteChain(Jobs(CreateJob));
    GatedChain([Alumni], req, validate, limiter);
  }

  /** Creating, updating and deleting events is for admins only. */
  lemma {:induction false} EventWritesAdminOnly(e: Endpoint, req: Request, validate: string -> Option<Claims>, limiter: string -> RateLimiting.Decision)
    requires e == Events(CreateEvent) || e == Events(UpdateEvent) || e == Events(DeleteEvent)
    ensures Serve(e, req, validate, limiter).Handled? <==>
              ValidHeader(req, validate) && HeaderRole(req, validate) == Admin
  {
    GatedRouteChain(e);
    GatedChain([Admin], req, validate, limiter);
  }

  /**
   * The routes under /admin, the e-mail settings group nested in the admin group
   * included, are registered after the admin group and before the upload group, with
   * no middleware of their own.
   */
  lemma {:induction false} AdminGroupRoutes(e: Endpoint)
    requires SectionOf(e) == AdminApi
    ensures e.AdminPanel?
    ensures AdminGroup.pos < Pos(e) < UploadGroup.pos && Own(e) == []
  {
    match e
    case AdminPanel(r) =>
      assert Gate(e).None?;
  }

  /** A route under /admin runs exactly the bearer check and the admin gate. */
  lemma {:induction false} AdminGroupChain(e: Endpoint)
    requires SectionOf(e) == AdminApi
    ensures Chain(e) == [Authenticate, Roles([Admin])]
  {
    AdminGroupRoutes(e);
    assert GroupChain(AdminApi, Pos(e)) == [Authenticate, Roles([Admin])];
  }

  /** Every route under /admin, the e-mail settings included, requires the admin role. */
  lemma {:induction false} AdminRoutesAdminOnly(e: Endpoint, req: Request, validate: string -> Option<Claims>, limiter: string -> RateLimiting.Decision)
    requires SectionOf(e) == AdminApi
    ensures Serve(e, req, validate, limiter).Handled? <==>
              ValidHeader(req, validate) && HeaderRole(req, validate) == Admin
  {
    AdminGroupChain(e);
    GatedChain([Admin], req, validate, limiter);
  }

  /** Showing or withdrawing interest in a job is for students; the interested-users list is for alumni and admins. */
  lemma {:induction false} JobInterestRoles(r: JobsRoute, req: Request, validate: string -> Option<Claims>, limiter: string -> RateLimiting.Decision)
    requires r == ShowInterest || r == RemoveInterest || r == GetInterestedUsers
    ensures r != GetInterestedUsers ==>
              (Serve(Jobs(r), req, validate, limiter).Handled? <==>
                 ValidHeader(req, validate) && HeaderRole(req, validate) == Student)
    ensures r == GetInterestedUsers ==>
              (Serve(Jobs(r), req, validate, limiter).Handled? <==>
                 ValidHeader(req, validate) && HeaderRole(req, validate) in {Alumni, Admin})
  {
    GatedRouteChain(Jobs(r));
    if r == GetInterestedUsers {
      GatedChain([Alumni, Admin], req, validate, limiter);
    } else {
      GatedChain([Student], req, validate, limiter);
    }
  }

  /** Gallery items are created through /gallery/upload by faculty and admins only. */
  lemma {:induction false} GalleryCreateRoles(req: Request, validate: string -> Option<Claims>, limiter: string -> RateLimiting.Decision)
    ensures Serve(Gallery(CreateGalleryItem), req, validate, limiter).Handled? <==>
              ValidHeader(req, validate) && HeaderRole(req, validate) in {Faculty, Admin}
  {
    GatedRouteChain(Gallery(CreateGalleryItem));
    GatedChain([Faculty, Admin], req, validate, limiter);
  }

  /**
   * /upload/gallery passes the bearer check twice (the protected group's and its own
   * group's) and then admits faculty, alumni and students, but not admins.
   */
  lemma {:induction false} UploadGalleryRoles(req: Request, validate: string -> Option<Claims>, limiter: string -> RateLimiting.Decision)
    ensures Chain(Upload(UploadGalleryImage)) == [Authenticate, Authenticate, Roles([Faculty, Alumni, Student])]
    ensures Serve(Upload(UploadGalleryImage), req, validate, limiter).Handled? <==>
              ValidHeader(req, validate) && HeaderRole(req, validate) in {Faculty, Alumni, Student}
  {
    var roles := [Faculty, Alumni, Student];
    var chain := [Authenticate, Authenticate, Roles(roles)];
    assert GroupChain(UploadApi, 62) == [Authenticate, Authenticate];
    assert Chain(Upload(UploadGalleryImage)) == chain;
    GatedChain(roles, req, validate, limiter);
    if ValidHeader(req, validate) {
      var c := validate(StripBearer(req.authorization)).value;
      var ctx := Ctx(Oid(c.userId), Some(c.role));
      assert RunMw(Authenticate, req, Ctx(Absent, None), validate, limiter) == Continue(ctx);
      assert RunMw(Authenticate, req, ctx, validate, limiter) == Continue(ctx);
      assert chain[1..] == [Authenticate, Roles(roles)];
      assert RunChain(chain, req, Ctx(Absent, None), validate, limiter)
          == RunChain([Authenticate, Roles(roles)], req, ctx, validate, limiter);
      assert RunChain([Authenticate, Roles(roles)], req, ctx, validate, limiter)
          == RunChain([Authenticate, Roles(roles)], req, Ctx(Absent, None), validate, limiter);
    }
  }

  /**
   * As registered, the chat socket lies behind the protected group's bearer check,
   * which runs before the socket's own guard: a request carrying its token only in
   * the query, as browser WebSocket clients do, is refused whatever the token.
   */
  lemma {:induction false} WsChatBehindBearerCheck(req: Request, validate: string -> Option<Claims>, limiter: string -> RateLimiting.Decision)
    ensures Chain(WsChat) == [Authenticate, WsGuard]
    ensures req.authorization == "" ==> Serve(WsChat, req, validate, limiter) == Rejected(401, "Authorization header required")
  {
    assert GroupChain(WsApi, 59) == [Authenticate];
    assert Chain(WsChat) == [Authenticate, WsGuard];
  }

  /** Positions with the chat socket registered before the protected group. */
  function CorrectedPos(e: Endpoint): nat
  {
    if e == WsChat then 0 else Pos(e)
  }

  function ServeCorrected(e: Endpoint, req: Request, validate: string -> Option<Claims>, limiter: string -> RateLimiting.Decision): Response
  {
    RunChain(ChainAt(e, CorrectedPos(e)), req, Ctx(Absent, None), validate, limiter)
  }

  /**
   * With the socket registered ahead of the protected group, its guard alone decides:
   * 426 without an upgrade, 401 "Token required" without a query token, 401 "Invalid
   * token" when it does not validate, and otherwise the handler runs with the user ID
   * stored as a hex string that parses back to the token's user, whatever the
   * Authorization header says.
   */
  lemma {:induction false} WsGuardCorrected(req: Request, validate: string -> Option<Claims>, limiter: string -> RateLimiting.Decision)
    ensures ChainAt(WsChat, CorrectedPos(WsChat)) == [WsGuard]
    ensures !req.upgrade ==> ServeCorrected(WsChat, req, validate, limiter) == Rejected(426, "Upgrade Required")
    ensures req.upgrade && req.token == "" ==>
              ServeCorrected(WsChat, req, validate, limiter) == Rejected(401, "Token required")
    ensures req.upgrade && req.token != "" && validate(req.token).None? ==>
              ServeCorrected(WsChat, req, validate, limiter) == Rejected(401, "Invalid token")
    ensures ServeCorrected(WsChat, req, validate, limiter).Handled? <==>
              req.upgrade && req.token != "" && validate(req.token).Some?
    ensures ServeCorrected(WsChat, req, validate, limiter).Handled? ==>
              var u := ServeCorrected(WsChat, req, validate, limiter).userId;
              u.Str? && GetUserID(u) == validate(req.token).value.userId
  {
    var ctx := Ctx(Absent, None);
    assert ChainAt(WsChat, 0) == [WsGuard];
    assert [WsGuard][1..] == [];
    if WsGuardCheck(req, validate).None? {
      var id := ValidateTokenAndGetUserID(req.token, validate).value;
      assert RunMw(WsGuard, req, ctx, validate, limiter) == Continue(Ctx(Str(id), None));
      assert RunChain([WsGuard], req, ctx, validate, limiter) == RunChain([], req, Ctx(Str(id), None), validate, limiter);
    }
  }
}
