/** The featured-projects admin route (app/api/admin/projects/route.ts):
    list, add, replace and delete project cards kept in one JSON file. */
module ProjectsApi {
  import opened Wrappers
  import opened Seqs
  import opened Text
  import opened Routes

  /** A project card: an image and an optional title and description. */
  datatype Project = Project(id: string, image: string, title: Option<string>, description: Option<string>)

  /** A POST or PUT body. `image` is `None` when the key is absent or does not
      hold a string; the other fields are "" when absent or falsy. */
  datatype ProjectBody = ProjectBody(id: string, image: Option<string>, title: string, description: string)

  datatype ProjectError =
    | NoImage     // 400
    | NoId        // 400
    | NotFound    // 404
    | Crashed     // 500: the body could not be read

  type ProjectReply<R> = Reply<seq<Project>, R, ProjectError>

  /** `readProjects()`: the file's array, or no projects when the file is
      missing, unparsable or not an array. */
  function ReadProjects(file: Stored<Project>): (r: seq<Project>)
    ensures file.Items? ==> r == file.items
    ensures !file.Items? ==> r == []
  {
    if file.Items? then file.items else []
  }

  /** `body.image` is a non-empty string. */
  predicate HasImage(b: ProjectBody) {
    b.image.Some? && b.image.value != ""
  }

  /** Truthy text, or absent. */
  function Optional(s: string): (r: Option<string>)
    ensures r.None? <==> s == ""
    ensures r.Some? ==> r.value == s
  {
    if s == "" then None else Some(s)
  }

  /** The stored card for a body whose image passed validation. */
  function Card(id: string, b: ProjectBody): (r: Project)
    requires HasImage(b)
    ensures r.id == id && r.image == b.image.value && r.image != ""
    ensures r.title == Optional(b.title) && r.description == Optional(b.description)
  {
    Project(id, b.image.value, Optional(b.title), Optional(b.description))
  }

  /** The id POST gives a card without one, created at `clock` milliseconds. */
  function NewId(clock: nat): string {
    "project-" + Decimal(clock)
  }

  /** POST: a card needs an image; it keeps the id it was sent or gets a
      fresh one, and is appended without any uniqueness check. */
  function Post(file: Stored<Project>, body: Option<ProjectBody>, clock: nat): (r: ProjectReply<Project>)
    ensures body.None? ==> r == Fail(500, Crashed)
    ensures body.Some? && !HasImage(body.value) ==> r == Fail(400, NoImage)
    ensures r.Ok? <==> body.Some? && HasImage(body.value)
    ensures r.Ok? ==> r.store == ReadProjects(file) + [r.body]
    ensures r.Ok? ==> r.body == Card(if body.value.id != "" then body.value.id else NewId(clock), body.value)
  {
    if body.None? then Fail(500, Crashed)
    else if !HasImage(body.value) then Fail(400, NoImage)
    else
      var b := body.value;
      var p := Card(if b.id != "" then b.id else NewId(clock), b);
      Ok(ReadProjects(file) + [p], p)
  }

  function WithId(id: string): Project -> bool {
    (p: Project) => p.id == id
  }

  /** PUT: id first, then image, then the card must exist; the card at the
      first matching index is replaced by one built from the body alone. */
  function Put(file: Stored<Project>, body: Option<ProjectBody>): (r: ProjectReply<Project>)
    ensures body.None? ==> r == Fail(500, Crashed)
    ensures body.Some? && body.value.id == "" ==> r == Fail(400, NoId)
    ensures body.Some? && body.value.id != "" && !HasImage(body.value) ==> r == Fail(400, NoImage)
    ensures body.Some? && body.value.id != "" && HasImage(body.value) &&
              (forall i :: 0 <= i < |ReadProjects(file)| ==> ReadProjects(file)[i].id != body.value.id)
            ==> r == Fail(404, NotFound)
    ensures r.Ok? <==> body.Some? && body.value.id != "" && HasImage(body.value) &&
                       exists i :: 0 <= i < |ReadProjects(file)| && ReadProjects(file)[i].id == body.value.id
    ensures r.Ok? ==> |r.store| == |ReadProjects(file)|
    ensures r.Ok? ==> var i := FirstIndex(ReadProjects(file), WithId(body.value.id)).value;
                      r.store == ReadProjects(file)[i := r.body] &&
                      r.body == Card(body.value.id, body.value) &&
                      ReadProjects(file)[i].id == body.value.id
  {
    if body.None? then Fail(500, Crashed)
    else
      var b := body.value;
      if b.id == "" then Fail(400, NoId)
      else if !HasImage(b) then Fail(400, NoImage)
      else
        var projects := ReadProjects(file);
        match FirstIndex(projects, WithId(b.id))
        case None => Fail(404, NotFound)
        case Some(i) =>
          var p := Card(b.id, b);
          Ok(projects[i := p], p)
  }

  /** PUT replaces a card in place: the list of ids is what it was, and
      every card but the replaced one is untouched. */
  lemma PutKeepsIds(file: Stored<Project>, body: Option<ProjectBody>)
    requires Put(file, body).Ok?
    ensures var r := Put(file, body);
            forall k :: 0 <= k < |r.store| ==> r.store[k].id == ReadProjects(file)[k].id
    ensures var r := Put(file, body);
            forall k :: 0 <= k < |r.store| && r.store[k] != r.body ==> r.store[k] == ReadProjects(file)[k]
  {
  }

  predicate Keeps(p: Project, id: string) { p.id != id }

  function Other(id: string): Project -> bool {
    (p: Project) => Keeps(p, id)
  }

  /** Filtering out an id keeps the whole list exactly when no card has it. */
  lemma OtherKeepsAllIff(projects: seq<Project>, id: string)
    ensures |Filter(projects, Other(id))| == |projects| <==>
            forall i :: 0 <= i < |projects| ==> projects[i].id != id
  {
    FilterKeepsAllIff(projects, Other(id));
  }

  /** Filtering out an id leaves no card with it, keeps the order, and keeps
      every other card as often as it was there. */
  lemma OtherFacts(projects: seq<Project>, id: string)
    ensures forall k :: 0 <= k < |Filter(projects, Other(id))| ==> Filter(projects, Other(id))[k].id != id
    ensures IsSubsequence(Filter(projects, Other(id)), projects)
    ensures forall p: Project :: p.id != id ==>
              multiset(Filter(projects, Other(id)))[p] == multiset(projects)[p]
  {
    FilterFacts(projects, Other(id));
  }

  /** DELETE `?id=`: 400 without an id, 404 when no card has it (nothing is
      written), otherwise every card with the id goes and the rest keep their
      order. */
  function Delete(file: Stored<Project>, id: string): (r: ProjectReply<bool>)
    ensures id == "" ==> r == Fail(400, NoId)
    ensures id != "" ==> (r == Fail(404, NotFound) <==>
                          forall i :: 0 <= i < |ReadProjects(file)| ==> ReadProjects(file)[i].id != id)
    ensures r.Ok? <==> id != "" && exists i :: 0 <= i < |ReadProjects(file)| && ReadProjects(file)[i].id == id
    ensures r.Ok? ==> |r.store| < |ReadProjects(file)|
    ensures r.Ok? ==> forall k :: 0 <= k < |r.store| ==> r.store[k].id != id
    ensures r.Ok? ==> IsSubsequence(r.store, ReadProjects(file))
    ensures r.Ok? ==> forall p: Project :: p.id != id ==>
                        multiset(r.store)[p] == multiset(ReadProjects(file))[p]
  {
    if id == "" then Fail(400, NoId)
    else
      var projects := ReadProjects(file);
      var filtered := Filter(projects, Other(id));
      OtherKeepsAllIff(projects, id);
      OtherFacts(projects, id);
      if |filtered| == |projects| then Fail(404, NotFound)
      else Ok(filtered, true)
  }

  /** POST does not check ids, so a card sent with an id already in use
      gives two cards with that id. */
  lemma PostDuplicatesId(file: Stored<Project>, b: ProjectBody, clock: nat, i: nat)
    requires HasImage(b) && b.id != ""
    requires i < |ReadProjects(file)| && ReadProjects(file)[i].id == b.id
    ensures var r := Post(file, Some(b), clock);
            r.Ok? && i < |r.store| - 1 && r.store[i].id == b.id && r.store[|r.store| - 1].id == b.id
  {
  }

  /** DELETE of the id a card was just posted with removes that card and
      every older card with the same id: what is left is the old list without
      that id, as if the POST had not happened. */
  lemma DeleteUndoesPost(file: Stored<Project>, b: ProjectBody, clock: nat)
    requires HasImage(b) && b.id != ""
    ensures var p := Post(file, Some(b), clock);
            var d := Delete(Items(p.store), b.id);
            d.Ok? && d.store == Filter(ReadProjects(file), Other(b.id))
    ensures var p := Post(file, Some(b), clock);
            var d := Delete(Items(p.store), b.id);
            (exists i :: 0 <= i < |ReadProjects(file)| && ReadProjects(file)[i].id == b.id) ==>
              d.store == Delete(file, b.id).store
  {
    var p := Post(file, Some(b), clock);
    FilterAppend(ReadProjects(file), [p.body], Other(b.id));
    assert Filter([p.body], Other(b.id)) == [];
  }
}
