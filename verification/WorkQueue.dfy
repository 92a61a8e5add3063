/** The deduplicating work queue of controller-runtime: an item is queued once and never processed twice at a time. */
module WorkQueue {
  datatype Queue = Queue(queued: set<string>, dirty: set<string>, processing: set<string>)

  const EMPTY := Queue({}, {}, {})

  predicate Valid(q: Queue) {
    q.queued == q.dirty - q.processing
  }

  function Add(q: Queue, item: string): Queue {
    if item in q.dirty then q
    else if item in q.processing then q.(dirty := q.dirty + {item})
    else q.(dirty := q.dirty + {item}, queued := q.queued + {item})
  }

  function Take(q: Queue, item: string): Queue {
    Queue(q.queued - {item}, q.dirty - {item}, q.processing + {item})
  }

  function Done(q: Queue, item: string): Queue {
    Queue(if item in q.dirty then q.queued + {item} else q.queued, q.dirty, q.processing - {item})
  }
}
