/** The cover page and the colophon page. */
module Pages {
  import opened Wrappers
  import opened Registry
  import Text

  datatype CoverBody = TitleOnly(heading: string) | CoverImage(src: string, alt: string)

  /** The cover page: its language, its (escaped) title, and either a title heading or an image. */
  datatype CoverPage = CoverPage(language: string, title: string, body: CoverBody)

  /** `cover`: an image page when `coverimage` names a file, a title-only page otherwise. */
  function Cover(params: Params): (r: Result<CoverPage, string>)
    ensures r.Success? <==> TextParam(params, "title").Some? && TextParam(params, "language").Some?
    ensures r.Success? ==> r.value.title == Text.Escape(TextParam(params, "title").value)
    ensures r.Success? ==> (r.value.body.CoverImage? <==> TextParam(params, "coverimage").Some?)
    ensures r.Success? && r.value.body.CoverImage? ==>
              r.value.body.src == TextParam(params, "coverimage").value && r.value.body.alt == r.value.title
    ensures r.Success? && r.value.body.TitleOnly? ==> r.value.body.heading == r.value.title
    ensures r.Success? ==> r.value.language == TextParam(params, "language").value
  {
    match Require(params, ["title", "language"])
    case Failure(k) => Failure(k)
    case Success(vs) =>
      var title := Text.Escape(vs[0]);
      var body := match TextParam(params, "coverimage")
        case Some(image) => CoverImage(image, title)
        case None => TitleOnly(title);
      Success(CoverPage(vs[1], title, body))
  }

  /** The roles the colophon lists, in the order it lists them: author, publisher, photographer. */
  const Roles: seq<string> := ["aut", "prt", "pht"]

  /** One colophon row: the role, its localized caption, and the (escaped) names. */
  datatype Row = Row(role: string, caption: string, names: seq<string>)

  function EscapeAll(names: seq<string>): (r: seq<string>)
    ensures |r| == |names|
    ensures forall i :: 0 <= i < |names| ==> r[i] == Text.Escape(names[i])
  {
    if names == [] then [] else [Text.Escape(names[0])] + EscapeAll(names[1..])
  }

  /** The row of `role`, when the parameters set it. */
  function RoleRow(params: Params, res: string -> string, role: string): (r: seq<Row>)
    ensures |r| <= 1
  {
    match NamesParam(params, role)
    case Some(names) => [Row(role, res(role), EscapeAll(names))]
    case None => []
  }

  /** A row for each role of `roles` that the parameters set, in the order of `roles`. */
  function RoleRows(params: Params, res: string -> string, roles: seq<string>): (r: seq<Row>)
    ensures |r| <= |roles|
  {
    if roles == [] then [] else RoleRow(params, res, roles[0]) + RoleRows(params, res, roles[1..])
  }

  /**
   * Every row is a role of `roles` that is set, with its localized caption and its
   * escaped names; every role of `roles` that is set has a row.
   */
  lemma {:induction false} RoleRowsSpec(params: Params, res: string -> string, roles: seq<string>)
    ensures forall row :: row in RoleRows(params, res, roles) ==>
              row.role in roles && NamesParam(params, row.role).Some? &&
              row.caption == res(row.role) && row.names == EscapeAll(NamesParam(params, row.role).value)
    ensures forall k :: k in roles && NamesParam(params, k).Some? ==> exists row :: row in RoleRows(params, res, roles) && row.role == k
  {
    if roles != [] {
      RoleRowsSpec(params, res, roles[1..]);
      var head, tail := RoleRow(params, res, roles[0]), RoleRows(params, res, roles[1..]);
      assert RoleRows(params, res, roles) == head + tail;
      forall k | k in roles && NamesParam(params, k).Some?
        ensures exists row :: row in RoleRows(params, res, roles) && row.role == k
      {
        if k == roles[0] {
          assert head[0] in RoleRows(params, res, roles);
        } else {
          assert k in roles[1..];
          var row :| row in tail && row.role == k;
          assert row in RoleRows(params, res, roles);
        }
      }
    }
  }

  function RowRoles(rows: seq<Row>): seq<string>
  {
    if rows == [] then [] else [rows[0].role] + RowRoles(rows[1..])
  }

  datatype ColophonPage = ColophonPage(language: string, title: string, bookTitle: string, pubLine: string, rows: seq<Row>)

  /**
   * `colophon`: the book title, the publication line (`dateLine` is the localized
   * rendering of the date) and the role rows.
   */
  function Colophon(params: Params, res: string -> string, dateLine: string -> string): (r: Result<ColophonPage, string>)
    ensures r.Success? <==> forall k :: k in ["title", "language", "date"] ==> TextParam(params, k).Some?
    ensures r.Success? ==> r.value.bookTitle == Text.Escape(TextParam(params, "title").value)
    ensures r.Success? ==> r.value.pubLine == dateLine(TextParam(params, "date").value)
    ensures r.Success? ==> r.value.language == TextParam(params, "language").value
    ensures r.Success? ==> forall row :: row in r.value.rows ==> row.role in Roles && NamesParam(params, row.role).Some?
  {
    match Require(params, ["title", "language", "date"])
    case Failure(k) => Failure(k)
    case Success(vs) =>
      RoleRowsSpec(params, res, Roles);
      Success(ColophonPage(vs[1], res("colophontitle"), Text.Escape(vs[0]), dateLine(vs[2]), RoleRows(params, res, Roles)))
  }

  function IfSet(params: Params, role: string): seq<string>
  {
    if NamesParam(params, role).Some? then [role] else []
  }

  /** The rows name exactly the roles of `roles` that are set, in the order of `roles`. */
  lemma {:induction false} RoleRowsRoles(params: Params, res: string -> string, roles: seq<string>)
    ensures RowRoles(RoleRows(params, res, roles)) == SetRoles(params, roles)
  {
    if roles != [] {
      var head := RoleRow(params, res, roles[0]);
      RowRolesAppend(head, RoleRows(params, res, roles[1..]));
      RoleRowsRoles(params, res, roles[1..]);
      assert RowRoles(head) == IfSet(params, roles[0]);
    }
  }

  function SetRoles(params: Params, roles: seq<string>): seq<string>
  {
    if roles == [] then [] else IfSet(params, roles[0]) + SetRoles(params, roles[1..])
  }

  /** The colophon's rows are exactly the roles that are set, always in the order aut, prt, pht. */
  lemma ColophonRowOrder(params: Params, res: string -> string, dateLine: string -> string)
    requires Colophon(params, res, dateLine).Success?
    ensures RowRoles(Colophon(params, res, dateLine).value.rows) ==
            IfSet(params, "aut") + IfSet(params, "prt") + IfSet(params, "pht")
  {
    assert Colophon(params, res, dateLine).value.rows == RoleRows(params, res, Roles);
    RoleRowsRoles(params, res, Roles);
    SetRolesFixedOrder(params);
  }

  lemma SetRolesFixedOrder(params: Params)
    ensures SetRoles(params, Roles) == IfSet(params, "aut") + IfSet(params, "prt") + IfSet(params, "pht")
  {
    var tail := ["prt", "pht"];
    assert Roles[0] == "aut" && Roles[1..] == tail;
    assert tail[0] == "prt" && tail[1..] == ["pht"];
    assert ["pht"][0] == "pht" && ["pht"][1..] == [];
    assert SetRoles(params, ["pht"]) == IfSet(params, "pht") + SetRoles(params, []);
    assert SetRoles(params, tail) == IfSet(params, "prt") + IfSet(params, "pht");
    assert SetRoles(params, Roles) == IfSet(params, "aut") + (IfSet(params, "prt") + IfSet(params, "pht"));
  }

  lemma {:induction false} RowRolesAppend(a: seq<Row>, b: seq<Row>)
    ensures RowRoles(a + b) == RowRoles(a) + RowRoles(b)
  {
    if a == [] {
      assert a + b == b;
    } else {
      assert (a + b)[0] == a[0] && (a + b)[1..] == a[1..] + b;
      RowRolesAppend(a[1..], b);
    }
  }
}
