/** The HTTP status codes the handlers and middlewares answer with, as Go's
    net/http names them. */
module HttpStatus {

  const StatusOK := 200
  const StatusCreated := 201
  const StatusNoContent := 204
  const StatusBadRequest := 400
  const StatusUnauthorized := 401
  const StatusNotFound := 404
  const StatusInternalServerError := 500
}
