/** The cache of one request context: what a command returned, by name and cache key. */
module RequestCache {
  import opened Outcomes
  import opened RequestLog

  /** What commands return besides an error, as far as it is told apart here. */
  datatype Response = Nil | Value(text: string)

  datatype CacheKey = CacheKey(commandName: string, key: string)

  datatype ExecutedCommand = ExecutedCommand(response: Response, err: Option<Error>, info: ExecutionInfo)

  /** What is stored: the events are marked as coming from the cache, and the time is zero. */
  function Cached(info: ExecutionInfo, response: Response, err: Option<Error>): ExecutedCommand {
    ExecutedCommand(response, err, ExecutionInfo(info.commandName, 0, info.events + [ResponseFromCache]))
  }

  class RequestCache {
    var cache: map<CacheKey, ExecutedCommand>

    constructor ()
      ensures cache == map[]
    {
      cache := map[];
    }

    method Get(name: string, key: string) returns (ec: Option<ExecutedCommand>)
      ensures ec == if CacheKey(name, key) in cache then Some(cache[CacheKey(name, key)]) else None
    {
      var k := CacheKey(name, key);
      if k in cache {
        return Some(cache[k]);
      }
      return None;
    }

    method Add(name: string, key: string, info: ExecutionInfo, response: Response, err: Option<Error>)
      modifies this
      ensures cache == old(cache)[CacheKey(name, key) := Cached(info, response, err)]
    {
      var cachedEvents := info.events + [ResponseFromCache];
      var cachedInfo := ExecutionInfo(info.commandName, 0, cachedEvents);
      cache := cache[CacheKey(name, key) := ExecutedCommand(response, err, cachedInfo)];
    }
  }
}
