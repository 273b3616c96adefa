/**
  The CiviCRM API client the storage talks to. Its transport is outside the
  model: each call returns an arbitrary response or fails, and a ghost log
  records every call in order together with what it returned.
 */
module CiviCrmApi {
  import opened PhpArray
  import opened Php

  /** The exception a failed call throws. */
  datatype ApiError = ApiError(message: string)

  datatype Outcome = Pass | Fail(error: ApiError)

  datatype Result<T> = Ok(value: T) | Err(error: ApiError)

  /** The parameter array of a call. */
  type Params = OMap<string, Value>

  datatype Call =
    | GetCall(entity: string, params: Params, response: Result<Value>)
    | SaveCall(entity: string, params: Params, outcome: Outcome)
    | DeleteCall(entity: string, params: Params, outcome: Outcome)

  class Api {
    /** Every call made so far, oldest first. */
    ghost var log: seq<Call>

    /** `get($entity, $params)`: the matching records, or an exception. */
    method Get(entity: string, params: Params) returns (r: Result<Value>)
      modifies this
      ensures log == old(log) + [GetCall(entity, params, r)]
    {
      r := *;
      log := log + [GetCall(entity, params, r)];
    }

    /** `save($entity, $params)`: creates or updates one record. */
    method Save(entity: string, params: Params) returns (r: Outcome)
      modifies this
      ensures log == old(log) + [SaveCall(entity, params, r)]
    {
      r := *;
      log := log + [SaveCall(entity, params, r)];
    }

    /** `delete($entity, $params)`: deletes the record `$params['id']`. */
    method Delete(entity: string, params: Params) returns (r: Outcome)
      modifies this
      ensures log == old(log) + [DeleteCall(entity, params, r)]
    {
      r := *;
      log := log + [DeleteCall(entity, params, r)];
    }
  }
}
