/**
 * The user resource: a controller object owning the user table and
 * handling create, get, delete and update requests by reading and changing
 * that table in place. Each method states the new table in terms of the
 * old one and the response it returns, and is tied to the matching
 * transition of module UserStore.
 */
module UserResource {
  import opened UserStore

  class UserController {
    /** email -> stored user */
    var userMap: Table

    /** A fresh controller starts with an empty table. */
    constructor ()
      ensures userMap == map[]
    {
      userMap := map[];
    }

    /**
     * POST /users: 409 and no change when the body's email is already a
     * key; otherwise store the user under its own email and return 201.
     */
    method CreateUser(user: User) returns (r: Response)
      modifies this
      ensures user.email in old(userMap) ==>
                r == Response(Conflict, None) && userMap == old(userMap)
      ensures user.email !in old(userMap) ==>
                r == Response(Created, Some(user)) && userMap == old(userMap)[user.email := user]
      ensures Outcome(userMap, r) == UserStore.CreateUser(old(userMap), user)
    {
      if user.email in userMap {
        return Response(Conflict, None);
      }
      userMap := userMap[user.email := user];
      return Response(Created, Some(user));
    }

    /** GET /users/{email}: 200 with the stored user, or 404. Changes nothing. */
    method GetUser(email: string) returns (r: Response)
      ensures email in userMap ==> r == Response(Ok, Some(userMap[email]))
      ensures email !in userMap ==> r == Response(NotFound, None)
      ensures r == UserStore.GetUser(userMap, email)
    {
      var user := Find(userMap, email);
      if user.None? {
        return Response(NotFound, None);
      }
      return Response(Ok, Some(user.value));
    }

    /**
     * DELETE /users/{email}: remove the entry; 200 with the removed user, or
     * 404 when there was none (and the table is as before).
     */
    method DeleteUser(email: string) returns (r: Response)
      modifies this
      ensures userMap == old(userMap) - {email}
      ensures email in old(userMap) ==> r == Response(Ok, Some(old(userMap)[email]))
      ensures email !in old(userMap) ==> r == Response(NotFound, None) && userMap == old(userMap)
      ensures Outcome(userMap, r) == UserStore.DeleteUser(old(userMap), email)
    {
      var user := Find(userMap, email);
      userMap := userMap - {email};
      if user.None? {
        return Response(NotFound, None);
      }
      return Response(Ok, Some(user.value));
    }

    /**
     * PUT /users/{email}: 404 and no change when email is not a key;
     * otherwise store the body under the path email (its own email is not
     * compared) and return 200 with it.
     */
    method UpdateUser(email: string, user: User) returns (r: Response)
      modifies this
      ensures email !in old(userMap) ==>
                r == Response(NotFound, None) && userMap == old(userMap)
      ensures email in old(userMap) ==>
                r == Response(Ok, Some(user)) && userMap == old(userMap)[email := user]
      ensures Outcome(userMap, r) == UserStore.UpdateUser(old(userMap), email, user)
    {
      var currentUser := Find(userMap, email);
      if currentUser.None? {
        return Response(NotFound, None);
      }
      userMap := userMap[email := user];
      return Response(Ok, Some(user));
    }
  }

  /**
   * A client of the controller: what its contracts alone let a caller
   * conclude about create, conflict, fetch, update, delete and fetch.
   */
  method CrudSession()
  {
    var c := new UserController();
    var a := User("a@x.com", map["name" := "A"]);
    var b := User("a@x.com", map["name" := "B"]);
    var r := c.CreateUser(a);
    assert r == Response(Created, Some(a));
    r := c.CreateUser(a);
    assert r == Response(Conflict, None);
    r := c.GetUser("a@x.com");
    assert r == Response(Ok, Some(a));
    r := c.UpdateUser("a@x.com", b);
    assert r == Response(Ok, Some(b));
    r := c.DeleteUser("a@x.com");
    assert r.status.Code() == 200 && r.body == Some(b);
    r := c.GetUser("a@x.com");
    assert r.status.Code() == 404;
    r := c.DeleteUser("a@x.com");
    assert r == Response(NotFound, None);
  }
}
