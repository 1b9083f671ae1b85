/**
 * The two client-side state containers: the signed-in user
 * (src/reducer/useUserStore.js) and the project being worked on
 * (src/reducer/useProjectStore.js). Each holds one nullable record that its
 * actions overwrite. A record is a map from field names to values; `None`
 * is `null`.
 */
module UserStore {
  import opened Wrappers

  /** `{ ...current, ...fields }`: every field of `fields`, and the fields of
      `current` that `fields` does not name; spreading `null` adds nothing. */
  function Merge<V>(current: Option<map<string, V>>, fields: map<string, V>): (merged: map<string, V>)
    ensures merged.Keys == fields.Keys + (if current.Some? then current.value.Keys else {})
    ensures forall k :: k in fields ==> merged[k] == fields[k]
    ensures forall k :: current.Some? && k in current.value && k !in fields ==> merged[k] == current.value[k]
  {
    current.GetOr(map[]) + fields
  }

  /** Merging into `null` gives exactly the new fields. */
  lemma MergeIntoNull<V>(fields: map<string, V>)
    ensures Merge(None, fields) == fields
  {
  }

  /** Merging the same fields twice is merging them once. */
  lemma MergeTwice<V>(current: Option<map<string, V>>, fields: map<string, V>)
    ensures Merge(Some(Merge(current, fields)), fields) == Merge(current, fields)
  {
  }

  /** Merging nothing into a user leaves the user as it was. */
  lemma MergeNothing<V>(user: map<string, V>)
    ensures Merge(Some(user), map[]) == user
  {
  }

  class Store<V> {
    var user: Option<map<string, V>>

    constructor ()
      ensures user == None
    {
      user := None;
    }

    method SetUser(userData: Option<map<string, V>>)
      modifies this
      ensures user == userData
    {
      user := userData;
    }

    method UpdateUser(updatedFields: map<string, V>)
      modifies this
      ensures user == Some(Merge(old(user), updatedFields))
      ensures forall k :: k in updatedFields ==> k in user.value && user.value[k] == updatedFields[k]
      ensures forall k :: old(user).Some? && k in old(user).value && k !in updatedFields ==>
                k in user.value && user.value[k] == old(user).value[k]
    {
      user := Some(Merge(user, updatedFields));
    }

    method Logout()
      modifies this
      ensures user == None
    {
      user := None;
    }
  }
}

module ProjectStore {
  import opened Wrappers

  class Store<V> {
    var activeProject: Option<map<string, V>>

    constructor ()
      ensures activeProject == None
    {
      activeProject := None;
    }

    /** Replaces the active project outright: nothing of the previous one is
        kept, so the last write wins. */
    method SetActiveProject(project: Option<map<string, V>>)
      modifies this
      ensures activeProject == project
      ensures forall k ::
                (old(activeProject).Some? && k in old(activeProject).value && (project.None? || k !in project.value))
                ==> (activeProject.None? || k !in activeProject.value)
    {
      activeProject := project;
    }
  }
}
