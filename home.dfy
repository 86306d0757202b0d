/**
 * The task-manager screen as a stateful component: the task list, the form
 * fields of the add form, the filter selection and the screen's own login
 * flag, with the handlers that update them after awaited external calls.
 */
module Home {
  import opened Tasks
  import opened Device

  /** The values the priority buttons of the add form offer. */
  const PriorityLevels: set<string> := {"low", "medium", "high"}

  /** The alert of a rejected add. */
  const FillAllFields := "Please fill all fields!"

  class HomeScreen {
    var tasks: seq<Task>
    var title: string
    var description: string
    var dueDate: int
    var priority: string
    var completed: bool
    var filter: TaskFilter
    var isLogin: bool

    /** `completed` is never set, and the priority buttons only offer the
        three levels. */
    ghost predicate Valid()
      reads this
    {
      !completed && priority in PriorityLevels
    }

    /** The initial state; the due-date field starts at the current time. */
    constructor (now: int)
      ensures Valid()
      ensures tasks == [] && title == "" && description == "" && dueDate == now
      ensures priority == "low" && !completed && filter == ShowAll && !isLogin
    {
      tasks, title, description, dueDate := [], "", "", now;
      priority, completed, filter, isLogin := "low", false, ShowAll, false;
    }

    /** The list the screen renders. */
    function View(): (r: seq<Task>)
      reads this
      ensures SortedByDue(r)
      ensures forall t :: t in r <==> t in tasks && StatusPasses(filter.status, t) && PriorityPasses(filter.priority, t)
    {
      FilteredTasks(tasks, filter)
    }

    /** Typing in the title field. */
    method EditTitle(s: string)
      requires Valid()
      modifies this
      ensures Valid() && title == s
      ensures tasks == old(tasks) && description == old(description) && dueDate == old(dueDate)
      ensures priority == old(priority) && filter == old(filter) && isLogin == old(isLogin)
    {
      title := s;
    }

    /** Typing in the description field. */
    method EditDescription(s: string)
      requires Valid()
      modifies this
      ensures Valid() && description == s
      ensures tasks == old(tasks) && title == old(title) && dueDate == old(dueDate)
      ensures priority == old(priority) && filter == old(filter) && isLogin == old(isLogin)
    {
      description := s;
    }

    /** Confirming a date in the date picker. */
    method PickDueDate(d: int)
      requires Valid()
      modifies this
      ensures Valid() && dueDate == d
      ensures tasks == old(tasks) && title == old(title) && description == old(description)
      ensures priority == old(priority) && filter == old(filter) && isLogin == old(isLogin)
    {
      dueDate := d;
    }

    /** Pressing one of the priority buttons. */
    method PickPriority(p: string)
      requires Valid() && p in PriorityLevels
      modifies this
      ensures Valid() && priority == p
      ensures tasks == old(tasks) && title == old(title) && description == old(description)
      ensures dueDate == old(dueDate) && filter == old(filter) && isLogin == old(isLogin)
    {
      priority := p;
    }

    /** Pressing a status button of the filter bar. */
    method PickStatusFilter(status: string)
      requires Valid()
      modifies this
      ensures Valid() && filter == TaskFilter(status, old(filter.priority))
      ensures tasks == old(tasks) && title == old(title) && description == old(description)
      ensures dueDate == old(dueDate) && priority == old(priority) && isLogin == old(isLogin)
    {
      filter := filter.(status := status);
    }

    /** Pressing a priority button of the filter bar. */
    method PickPriorityFilter(p: string)
      requires Valid()
      modifies this
      ensures Valid() && filter == TaskFilter(old(filter.status), p)
      ensures tasks == old(tasks) && title == old(title) && description == old(description)
      ensures dueDate == old(dueDate) && priority == old(priority) && isLogin == old(isLogin)
    {
      filter := filter.(priority := p);
    }

    /** The list a completed fetch hands over: it replaces the old one. */
    method ReceiveTasks(fetched: seq<Task>)
      requires Valid()
      modifies this
      ensures Valid() && tasks == fetched
      ensures title == old(title) && description == old(description) && dueDate == old(dueDate)
      ensures priority == old(priority) && filter == old(filter) && isLogin == old(isLogin)
    {
      tasks := fetched;
    }

    /** `addTask`. An empty title or description is refused with an alert
        and nothing else happens. Otherwise the task is sent to the task
        collection with `completed` false; if that call rejects, the
        rejection propagates and the form keeps its contents; if it
        resolves, the form is cleared, the due date reset to `now` and the
        priority to "low". The local list is never appended to. The result
        is how the returned promise settles. */
    method AddTask(dev: Device, remote: Outcome, now: int) returns (settled: Outcome)
      requires Valid()
      modifies this, dev
      ensures Valid()
      ensures tasks == old(tasks) && filter == old(filter) && isLogin == old(isLogin)
      ensures dev.storage == old(dev.storage)
      ensures old(title) == "" || old(description) == "" ==>
        && dev.log == old(dev.log) + [Notify(FillAllFields)]
        && settled == Resolved
        && title == old(title) && description == old(description)
        && dueDate == old(dueDate) && priority == old(priority)
      ensures old(title) != "" && old(description) != "" ==>
        && dev.log == old(dev.log) + [TaskCreate(old(title), old(description), old(dueDate), old(priority), false)]
        && settled == remote
      ensures old(title) != "" && old(description) != "" && remote.Resolved? ==>
        title == "" && description == "" && dueDate == now && priority == "low"
      ensures remote.Rejected? ==>
        title == old(title) && description == old(description) && dueDate == old(dueDate) && priority == old(priority)
    {
      // The Date object in `dueDate` is always truthy, so only the two
      // text fields can fail the guard.
      if title == "" || description == "" {
        dev.Emit(Notify(FillAllFields));
        return Resolved;
      }
      dev.Emit(TaskCreate(title, description, dueDate, priority, completed));
      if remote.Rejected? {
        return remote;
      }
      title := "";
      description := "";
      dueDate := now;
      priority := "low";
      settled := Resolved;
    }

    /** `deleteTask(id)`: the remote delete first; only when it resolves
        are the tasks with that id dropped from the local list. */
    method DeleteTask(dev: Device, id: string, remote: Outcome) returns (settled: Outcome)
      requires Valid()
      modifies this, dev
      ensures Valid() && settled == remote
      ensures dev.log == old(dev.log) + [TaskDelete(id)] && dev.storage == old(dev.storage)
      ensures tasks == if remote.Resolved? then RemoveTask(old(tasks), id) else old(tasks)
      ensures title == old(title) && description == old(description) && dueDate == old(dueDate)
      ensures priority == old(priority) && filter == old(filter) && isLogin == old(isLogin)
    {
      dev.Emit(TaskDelete(id));
      if remote.Rejected? {
        return remote;
      }
      tasks := RemoveTask(tasks, id);
      settled := Resolved;
    }

    /** The screen's `signOut`: the provider's sign-out, then removal of
        the token, then the screen's own login flag. A failure of either
        call is caught and logged, and skips the rest. */
    method SignOut(dev: Device, remote: Outcome, removal: Outcome)
      requires Valid()
      modifies this, dev
      ensures Valid()
      ensures dev.log == old(dev.log) + [SignOutRequest] + (if remote.Resolved? then [StorageRemove(TokenKey)] else [])
      ensures dev.storage == if remote.Resolved? then AfterRemove(old(dev.storage), TokenKey, removal) else old(dev.storage)
      ensures isLogin == if remote.Resolved? && removal.Resolved? then false else old(isLogin)
      ensures tasks == old(tasks) && title == old(title) && description == old(description)
      ensures dueDate == old(dueDate) && priority == old(priority) && filter == old(filter)
    {
      dev.Emit(SignOutRequest);
      if remote.Rejected? {
        return;
      }
      dev.RemoveItem(TokenKey, removal);
      if removal.Rejected? {
        return;
      }
      isLogin := false;
    }
  }
}
