/** The error answer of an API endpoint: FastAPI's `HTTPException` with its
    status code and detail text. */
module Http {
  datatype HttpError = HttpError(status: int, detail: string)

  const DockerDown: HttpError := HttpError(503, "Docker no está corriendo")
  const QnapNotMounted: HttpError := HttpError(503, "QNAP no está montado")
}
